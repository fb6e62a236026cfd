/** The checkpoint: the state of the device is written as a stream of bytes over whatever blocks happen
    to be erased, and read back at the next mount. */
module Checkpoint {
  import opened Records
  import opened Offsets

  /** A chunk of NAND: blank, a page of the checkpoint stream with its tags, or anything else. hint is
      where to look for the next block, id numbers the pages from 1. */
  datatype Cell = Blank | Other | Page(data: seq<Byte>, hint: int, id: nat)

  // ----- block information, as it lies in memory -----

  const INFO_SIZE: nat := 8

  // Block states
  const EMPTY: Byte := 3
  const ALLOCATING: Byte := 4
  const FULL: Byte := 5
  const CHECKPOINT: Byte := 7
  const COLLECTING: Byte := 8
  const DEAD: Byte := 9

  predicate InfoFor(info: seq<Byte>, nBlocks: nat) {
    |info| == INFO_SIZE * nBlocks
  }

  /** The state is in the upper four bits of the third byte. */
  function StateOf(info: seq<Byte>, b: nat): Byte
    requires INFO_SIZE * b + 2 < |info|
  {
    info[INFO_SIZE * b + 2] >> 4
  }

  function WithState(x: Byte, s: Byte): Byte {
    (x & 0x0F) | (s << 4)
  }

  lemma NewState(x: Byte, s: Byte, t: Byte)
    requires s < 16 && t < 16
    ensures WithState(x, s) >> 4 == s && WithState(WithState(x, s), t) == WithState(x, t)
    ensures x >> 4 == s ==> WithState(x, s) == x
  {
  }

  function SetState(info: seq<Byte>, b: nat, s: Byte): seq<Byte>
    requires INFO_SIZE * b + 2 < |info|
  {
    info[INFO_SIZE * b + 2 := WithState(info[INFO_SIZE * b + 2], s)]
  }

  /** The lower ten bits count the soft deletions, the next ten the pages in use. */
  function SoftDeletions(info: seq<Byte>, b: nat): int
    requires INFO_SIZE * b + 2 < |info|
  {
    (info[INFO_SIZE * b] as int) + ((info[INFO_SIZE * b + 1] & 3) as int) * 256
  }

  function PagesInUse(info: seq<Byte>, b: nat): int
    requires INFO_SIZE * b + 2 < |info|
  {
    ((info[INFO_SIZE * b + 1] >> 2) as int) + ((info[INFO_SIZE * b + 2] & 0x0F) as int) * 64
  }

  function FreeIn(info: seq<Byte>, b: nat, cpb: nat): int
    requires INFO_SIZE * b + 2 < |info|
  {
    if StateOf(info, b) in {EMPTY, ALLOCATING, FULL, COLLECTING} then cpb - PagesInUse(info, b) + SoftDeletions(info, b)
        else 0
  }

  /** The free chunks of the first k blocks. */
  function FreeChunks(info: seq<Byte>, cpb: nat, k: nat): int
    requires INFO_SIZE * k <= |info|
  {
    if k == 0 then 0 else FreeChunks(info, cpb, k - 1) + FreeIn(info, k - 1, cpb)
  }

  function IsErased(info: seq<Byte>, b: nat): int
    requires INFO_SIZE * b + 2 < |info|
  {
    if StateOf(info, b) == EMPTY then 1 else 0
  }

  function ErasedBlocks(info: seq<Byte>, k: nat): int
    requires INFO_SIZE * k <= |info|
  {
    if k == 0 then 0 else ErasedBlocks(info, k - 1) + IsErased(info, k - 1)
  }

  /** Of the first k blocks, those that are erased, and those of a checkpoint that the driver can erase. */
  function Erasable(info: seq<Byte>, erases: iset<nat>, k: nat): nat
    requires INFO_SIZE * k <= |info|
  {
    if k == 0 then 0 else Erasable(info, erases, k - 1) + if AfterErase(info, erases, k - 1) == EMPTY then 1 else 0
  }

  /** The state of a block once the blocks of the checkpoint have been erased, or found bad. */
  function AfterErase(info: seq<Byte>, erases: iset<nat>, b: nat): Byte
    requires INFO_SIZE * b + 2 < |info|
  {
    if StateOf(info, b) != CHECKPOINT then StateOf(info, b) else if b in erases then EMPTY else DEAD
  }

  lemma {:induction false} ErasedNow(info: seq<Byte>, info': seq<Byte>, erases: iset<nat>, k: nat)
    requires INFO_SIZE * k <= |info| && INFO_SIZE * k <= |info'|
    requires forall b: nat | b < k :: StateOf(info', b) == AfterErase(info, erases, b)
    ensures ErasedBlocks(info', k) == Erasable(info, erases, k)
  {
    if k > 0 {
      ErasedNow(info, info', erases, k - 1);
    }
  }

  ghost predicate NoneErasedBelow(info: seq<Byte>, nBlocks: nat, k: int) {
    InfoFor(info, nBlocks) && forall b: nat | b < k && b < nBlocks :: StateOf(info, b) != EMPTY
  }

  lemma {:induction false} NoneErased(info: seq<Byte>, nBlocks: nat, k: nat)
    requires NoneErasedBelow(info, nBlocks, nBlocks) && k <= nBlocks
    ensures ErasedBlocks(info, k) == 0
  {
    if k > 0 {
      NoneErased(info, nBlocks, k - 1);
    }
  }

  lemma {:induction false} ErasedNotNegative(info: seq<Byte>, k: nat)
    requires INFO_SIZE * k <= |info|
    ensures ErasedBlocks(info, k) >= 0
  {
    if k > 0 {
      ErasedNotNegative(info, k - 1);
    }
  }

  /** An erased block, and one of a checkpoint, has no pages in use. */
  ghost predicate BlankOk(info: seq<Byte>, nBlocks: nat) {
    InfoFor(info, nBlocks) && forall b: nat | b < nBlocks && StateOf(info, b) in {EMPTY, CHECKPOINT} ::
        PagesInUse(info, b) == 0 && SoftDeletions(info, b) == 0
  }

  lemma ErasedInfo(info: seq<Byte>, b: nat)
    requires INFO_SIZE * b + 2 < |info| && info[INFO_SIZE * b] == 0 && info[INFO_SIZE * b + 1] == 0
        && info[INFO_SIZE * b + 2] == WithState(0, EMPTY)
    ensures StateOf(info, b) == EMPTY && PagesInUse(info, b) == 0 && SoftDeletions(info, b) == 0
  {
    NewState(0, EMPTY, EMPTY);
    LowerNibble(0, EMPTY);
  }

  lemma SetStateAt(info: seq<Byte>, b: nat, s: Byte, c: nat)
    requires INFO_SIZE * b + 2 < |info| && INFO_SIZE * c + 2 < |info| && s < 16
    ensures var i' := SetState(info, b, s);
            && StateOf(i', c) == (if c == b then s else StateOf(info, c))
            && PagesInUse(i', c) == PagesInUse(info, c) && SoftDeletions(i', c) == SoftDeletions(info, c)
  {
    NewState(info[INFO_SIZE * b + 2], s, s);
    LowerNibble(info[INFO_SIZE * b + 2], s);
  }

  lemma LowerNibble(x: Byte, s: Byte)
    requires s < 16
    ensures WithState(x, s) & 0x0F == x & 0x0F
  {
  }

  lemma {:induction false} CountsSetState(info: seq<Byte>, cpb: nat, b: nat, s: Byte, k: nat)
    requires INFO_SIZE * k <= |info| && INFO_SIZE * b + 2 < |info| && s < 16
    ensures var i' := SetState(info, b, s);
            && FreeChunks(i', cpb, k) == FreeChunks(info, cpb, k) + (if b < k
                then FreeIn(i', b, cpb) - FreeIn(info, b, cpb) else 0)
            && ErasedBlocks(i', k) == ErasedBlocks(info, k) + (if b < k then IsErased(i', b) - IsErased(info, b) else 0)
  {
    hide WithState, PagesInUse, SoftDeletions, StateOf, SetState;
    if k > 0 {
      CountsSetState(info, cpb, b, s, k - 1);
      SetStateAt(info, b, s, k - 1);
    }
  }

  // ----- the stream on NAND -----

  /** The blocks used, in order, are exactly those whose first chunk is a page of a checkpoint; page k is
      chunk k of them, counted on from block to block, and each points past its block. */
  ghost predicate Stream(n: nat, cpb: nat, nand: seq<seq<Cell>>, used: seq<nat>, pages: seq<seq<Byte>>)
    requires cpb > 0
  {
    && (forall b | 0 <= b < |nand| :: |nand[b]| == cpb)
    && (forall j | 0 <= j < |used| :: used[j] < |nand| && nand[used[j]][0].Page?)
    && (forall i, j | 0 <= i < j < |used| :: used[i] < used[j])
    && (forall b: nat | b < |nand| && nand[b][0].Page? :: b in used)
    && (|used| - 1) * cpb < |pages| <= |used| * cpb
    && (forall k | 0 <= k < |pages| :: PageAt(cpb, nand, used, pages, k))
    && (forall k | 0 <= k < |pages| :: |pages[k]| == n)
  }

  ghost predicate PageAt(cpb: nat, nand: seq<seq<Cell>>, used: seq<nat>, pages: seq<seq<Byte>>, k: nat)
    requires cpb > 0 && k < |pages|
  {
    var j := k / cpb;
    j < |used| && used[j] < |nand| && k % cpb < |nand[used[j]]|
        && nand[used[j]][k % cpb] == Page(pages[k], used[j] + 1, k + 1)
  }

  /** The first block from next on that holds checkpoint pages is the next one of those used. */
  lemma NextUsed(n: nat, cpb: nat, nand: seq<seq<Cell>>, used: seq<nat>, pages: seq<seq<Byte>>, j: nat, b: nat)
    requires cpb > 0 && Stream(n, cpb, nand, used, pages) && j < |used|
    requires b < |nand| && (if j == 0 then 0 else used[j - 1] + 1) <= b
    ensures nand[b][0].Page? ==> used[j] <= b
    ensures b == used[j] ==> nand[b][0].Page?
  {
    if nand[b][0].Page? {
      var i :| 0 <= i < |used| && used[i] == b;
    }
  }

  lemma UsedAhead(n: nat, cpb: nat, nand: seq<seq<Cell>>, used: seq<nat>, pages: seq<seq<Byte>>, j: nat)
    requires cpb > 0 && Stream(n, cpb, nand, used, pages) && j < |used|
    ensures (if j == 0 then 0 else used[j - 1] + 1) <= used[j] < |nand|
  {
  }

  // ----- bytes as numbers -----

  predicate Odd(v: nat) { v % 2 == 1 }
  function BitsToByte(b7: bool, b6: bool, b5: bool, b4: bool, b3: bool, b2: bool, b1: bool, b0: bool): Byte
  {
    (if b7 then 128 else 0) | (if b6 then 64 else 0) | (if b5 then 32 else 0) | (if b4 then 16 else 0)
    | (if b3 then 8 else 0) | (if b2 then 4 else 0) | (if b1 then 2 else 0) | (if b0 then 1 else 0)
  }
  /** The byte that stands for v, if that is below 256. */
  function ToByte(v: nat): Byte {
    var h1 := v / 2;
    var h2 := h1 / 2;
    var h3 := h2 / 2;
    var h4 := h3 / 2;
    var h5 := h4 / 2;
    var h6 := h5 / 2;
    BitsToByte(Odd(h6 / 2), Odd(h6), Odd(h5), Odd(h4), Odd(h3), Odd(h2), Odd(h1), Odd(v))
  }
  function If(b: bool, k: nat): nat { if b then k else 0 }
  /** The number a byte stands for. */
  function FromByte(x: Byte): (r: nat)
    ensures r < 256
  {
    If(x & 128 != 0, 128) + If(x & 64 != 0, 64) + If(x & 32 != 0, 32) + If(x & 16 != 0, 16)
    + If(x & 8 != 0, 8) + If(x & 4 != 0, 4) + If(x & 2 != 0, 2) + If(x & 1 != 0, 1)
  }
  lemma BitsBack(b7: bool, b6: bool, b5: bool, b4: bool, b3: bool, b2: bool, b1: bool, b0: bool)
    ensures var x := BitsToByte(b7, b6, b5, b4, b3, b2, b1, b0);
      (x & 128 != 0) == b7 && (x & 64 != 0) == b6 && (x & 32 != 0) == b5 && (x & 16 != 0) == b4
      && (x & 8 != 0) == b3 && (x & 4 != 0) == b2 && (x & 2 != 0) == b1 && (x & 1 != 0) == b0
  {}
  lemma FromBits(b7: bool, b6: bool, b5: bool, b4: bool, b3: bool, b2: bool, b1: bool, b0: bool)
    ensures FromByte(BitsToByte(b7, b6, b5, b4, b3, b2, b1, b0))
        == If(b7, 128) + If(b6, 64) + If(b5, 32) + If(b4, 16) + If(b3, 8) + If(b2, 4) + If(b1, 2) + If(b0, 1)
  {
    hide BitsToByte;
    BitsBack(b7, b6, b5, b4, b3, b2, b1, b0);
  }

  lemma Doubled(v: nat, k: nat)
    ensures k * v == 2 * k * (v / 2) + If(Odd(v), k)
  {
    assert v == 2 * (v / 2) + v % 2;
  }

  lemma Binary(v: nat, h1: nat, h2: nat, h3: nat, h4: nat, h5: nat, h6: nat, h7: nat)
    requires v < 256 && h1 == v / 2 && h2 == h1 / 2 && h3 == h2 / 2 && h4 == h3 / 2 && h5 == h4 / 2 && h6 == h5 / 2
        && h7 == h6 / 2
    ensures v == If(Odd(h7), 128) + If(Odd(h6), 64) + If(Odd(h5), 32) + If(Odd(h4), 16) + If(Odd(h3), 8) + If(Odd(h2),
        4) + If(Odd(h1), 2) + If(Odd(v), 1)
  {
    Doubled(v, 1);
    Doubled(h1, 2);
    Doubled(h2, 4);
    Doubled(h3, 8);
    Doubled(h4, 16);
    Doubled(h5, 32);
    Doubled(h6, 64);
    Doubled(h7, 128);
    assert h7 / 2 == 0;
  }

  lemma ByteBack(v: nat)
    requires v < 256
    ensures FromByte(ToByte(v)) == v
  {
    hide BitsToByte, FromByte, Odd, If;
    var h1 := v / 2;
    var h2 := h1 / 2;
    var h3 := h2 / 2;
    var h4 := h3 / 2;
    var h5 := h4 / 2;
    var h6 := h5 / 2;
    var h7 := h6 / 2;
    FromBits(Odd(h7), Odd(h6), Odd(h5), Odd(h4), Odd(h3), Odd(h2), Odd(h1), Odd(v));
    Binary(v, h1, h2, h3, h4, h5, h6, h7);
  }

  // ----- checksums -----

  /** The sum of the bytes, kept in 32 bits. */
  function SumOf(s: seq<Byte>): nat {
    if s == [] then 0 else (SumOf(s[..|s| - 1]) + FromByte(s[|s| - 1])) % 0x1_0000_0000
  }

  function XorOf(s: seq<Byte>): Byte {
    if s == [] then 0 else XorOf(s[..|s| - 1]) ^ s[|s| - 1]
  }

  /** The composite sum: the sum moved up by eight bits, the xor below. */
  function CompositeSum(sum: nat, xor: Byte): (r: nat)
    ensures r < 0x1_0000_0000 && r % 256 == FromByte(xor) && (r / 256 - sum) % 0x100_0000 == 0
  {
    assert sum == sum / 0x100_0000 * 0x100_0000 + sum % 0x100_0000;
    (sum % 0x100_0000) * 256 + FromByte(xor)
  }

  lemma SumMore(s: seq<Byte>, b: Byte)
    ensures SumOf(s + [b]) == (SumOf(s) + FromByte(b)) % 0x1_0000_0000
    ensures XorOf(s + [b]) == XorOf(s) ^ b
  {
    assert (s + [b])[..|s|] == s;
  }

  // ----- words -----

  /** Four bytes, the lowest first. */
  function Word(x: nat): (s: seq<Byte>)
    requires x < 0x1_0000_0000
    ensures |s| == 4
  {
    [ToByte(x % 256), ToByte(x / 256 % 256), ToByte(x / 65536 % 256), ToByte(x / 16777216 % 256)]
  }

  function Unword(s: seq<Byte>): nat
    requires |s| == 4
  {
    FromByte(s[0]) + 256 * FromByte(s[1]) + 65536 * FromByte(s[2]) + 16777216 * FromByte(s[3])
  }

  lemma Digits(x: nat)
    requires x < 0x1_0000_0000
    ensures x % 256 + 256 * (x / 256 % 256) + 65536 * (x / 65536 % 256) + 16777216 * (x / 16777216 % 256) == x
  {
    assert x / 65536 == x / 256 / 256 && x / 16777216 == x / 65536 / 256;
  }

  lemma UnwordFour(a: nat, b: nat, c: nat, d: nat)
    requires a < 256 && b < 256 && c < 256 && d < 256
    ensures Unword([ToByte(a), ToByte(b), ToByte(c), ToByte(d)]) == a + 256 * b + 65536 * c + 16777216 * d
  {
    hide ToByte, FromByte;
    ByteBack(a);
    ByteBack(b);
    ByteBack(c);
    ByteBack(d);
  }

  lemma WordBack(x: nat)
    requires x < 0x1_0000_0000
    ensures Unword(Word(x)) == x
  {
    hide Unword, ToByte;
    UnwordFour(x % 256, x / 256 % 256, x / 65536 % 256, x / 16777216 % 256);
    Digits(x);
  }

  // ----- the bytes written -----

  /** The number of bytes before page k. */
  function Start(n: nat, k: nat): nat {
    k * n
  }

  /** Byte i of the stream is byte i % n of page i / n, the last page being the buffer. */
  ghost predicate Pages(n: nat, pages: seq<seq<Byte>>, buffer: seq<Byte>, written: seq<Byte>)
    requires n > 0
  {
    && |buffer| == n && (forall k | 0 <= k < |pages| :: |pages[k]| == n)
    && Start(n, |pages|) <= |written| < Start(n, |pages|) + n
    && forall i | 0 <= i < |written| :: written[i] == ByteOf(n, pages, buffer, i)
  }

  /** Byte i of the pages and what follows them. */
  function ByteOf(n: nat, pages: seq<seq<Byte>>, buffer: seq<Byte>, i: nat): Byte
    requires n > 0
  {
    var k := i / n;
    if k < |pages| then (if i % n < |pages[k]| then pages[k][i % n] else 0) else if i % n < |buffer| then buffer[i % n]
        else 0
  }

  function Zeros(n: nat): (s: seq<Byte>)
    ensures |s| == n && forall i | 0 <= i < n :: s[i] == 0
  {
    seq(n, i => 0)
  }

  lemma PlaceOf(n: nat, k: nat, r: nat)
    requires n > 0 && r < n
    ensures (k * n + r) / n == k && (k * n + r) % n == r
  {
    QuotientIs(k * n + r, n, k, r);
  }

  lemma IndexBefore(n: nat, k: nat, i: nat)
    requires n > 0
    ensures i < k * n ==> i / n < k
    ensures i >= k * n ==> i / n >= k
  {
    RemainderIs(i, n);
    if i < k * n {
      MulGrows(i / n - k, n);
      assert (i / n - k) * n == (i / n) * n - k * n;
    } else {
      MulGrows(k - 1 - i / n, n);
      assert (k - 1 - i / n) * n == k * n - n - (i / n) * n;
    }
  }

  /** One more byte goes into the buffer. */
  lemma ByteWritten(n: nat, pages: seq<seq<Byte>>, buffer: seq<Byte>, written: seq<Byte>, off: nat, b: Byte)
    requires n > 0 && Pages(n, pages, buffer, written) && off == |written| - Start(n, |pages|)
    ensures off < n && |written| == Start(n, |pages|) + off
    ensures var buffer', written' := buffer[off := b], written + [b];
            if off + 1 < n then Pages(n, pages, buffer', written')
            else |written'| == Start(n, |pages| + 1) && Pages(n, pages + [buffer'], Zeros(n), written')
  {
    var buffer', written' := buffer[off := b], written + [b];
    PlaceOf(n, |pages|, off);
    forall i | 0 <= i < |written'|
      ensures written'[i] == ByteOf(n, pages, buffer', i)
      ensures written'[i] == ByteOf(n, pages + [buffer'], Zeros(n), i)
    {
      IndexBefore(n, |pages|, i);
      IndexBefore(n, |pages| + 1, i);
      RemainderIs(i, n);
      if i < |written| {
        assert written[i] == ByteOf(n, pages, buffer, i);
        if i / n == |pages| {
          assert i == Start(n, |pages|) + i % n;
        }
      }
    }
  }

  /** The buffer, part of it filled, becomes the last page. */
  lemma LastPage(n: nat, pages: seq<seq<Byte>>, buffer: seq<Byte>, written: seq<Byte>)
    requires n > 0 && Pages(n, pages, buffer, written)
    ensures forall i | 0 <= i < |written| :: written[i] == ByteOf(n, pages + [buffer], [], i)
  {
    forall i | 0 <= i < |written|
      ensures written[i] == ByteOf(n, pages + [buffer], [], i)
    {
      assert written[i] == ByteOf(n, pages, buffer, i);
      IndexBefore(n, |pages| + 1, i);
    }
  }

  /** The pages hold the stream. */
  ghost predicate Holds(n: nat, pages: seq<seq<Byte>>, written: seq<Byte>)
    requires n > 0
  {
    && |written| <= Start(n, |pages|) && Start(n, |pages|) < |written| + n
    && forall i | 0 <= i < |written| :: written[i] == ByteOf(n, pages, [], i)
  }

  /** Only the cells of these blocks differ. */
  ghost predicate KeptCells(nand: seq<seq<Cell>>, nand': seq<seq<Cell>>, used: seq<nat>) {
    |nand'| == |nand| && forall b: nat | b < |nand| && b !in used :: nand'[b] == nand[b]
  }

  /** Nothing has been written to, or erased in, a block that was neither erased nor of a checkpoint. */
  ghost predicate OthersKept(info: seq<Byte>, nand: seq<seq<Cell>>, nand': seq<seq<Cell>>, nBlocks: nat) {
    && |nand'| == |nand| == nBlocks && InfoFor(info, nBlocks)
    && forall b: nat | b < nBlocks && StateOf(info, b) !in {EMPTY, CHECKPOINT} :: nand'[b] == nand[b]
  }

  // ----- one more page -----

  ghost predicate Cells(nand: seq<seq<Cell>>, nBlocks: nat, cpb: nat) {
    |nand| == nBlocks && forall b | 0 <= b < nBlocks :: |nand[b]| == cpb
  }

  function Store(nand: seq<seq<Cell>>, b: nat, c: nat, x: Cell): seq<seq<Cell>>
    requires b < |nand| && c < |nand[b]|
  {
    nand[b := nand[b][c := x]]
  }

  /** Where the next page goes: on in the block last used, or else in a new one. */
  ghost predicate Cursor(cpb: nat, used: seq<nat>, nPages: nat, block: int, chunk: int, next: int) {
    && next == (if used == [] then 0 else used[|used| - 1] + 1)
    && (if block >= 0 then |used| > 0 && block == used[|used| - 1] && 0 < chunk < cpb
        && nPages == (|used| - 1) * cpb + chunk
        else nPages == |used| * cpb)
  }

  lemma PageKept(cpb: nat, nand: seq<seq<Cell>>, used: seq<nat>, pages: seq<seq<Byte>>, k: nat, b: nat, c: nat, x: Cell,
          used': seq<nat>, p: seq<Byte>)
    requires cpb > 0 && k < |pages| && PageAt(cpb, nand, used, pages, k) && b < |nand| && c < |nand[b]| && used <= used'
    requires used[k / cpb] != b || k % cpb != c
    ensures PageAt(cpb, Store(nand, b, c, x), used', pages + [p], k)
  {
  }

  /** A page is added to the block that the last one went to. */
  lemma StreamInBlock(n: nat, cpb: nat, nand: seq<seq<Cell>>, used: seq<nat>, pages: seq<seq<Byte>>, chunk: nat,
          p: seq<Byte>)
    requires cpb > 0 && Stream(n, cpb, nand, used, pages) && |used| > 0 && |p| == n
    requires 0 < chunk < cpb && |pages| == (|used| - 1) * cpb + chunk
    ensures var b := used[|used| - 1];
            Stream(n, cpb, Store(nand, b, chunk, Page(p, b + 1, |pages| + 1)), used, pages + [p])
  {
    var b := used[|used| - 1];
    var x := Page(p, b + 1, |pages| + 1);
    var nand' := Store(nand, b, chunk, x);
    PlaceOf(cpb, |used| - 1, chunk);
    hide PageAt;
    forall k | 0 <= k < |pages| + 1
      ensures PageAt(cpb, nand', used, pages + [p], k)
    {
      if k < |pages| {
        SamePlace(cpb, |used| - 1, chunk, k);
        PageUsed(cpb, nand, used, pages, k);
        PageKept(cpb, nand, used, pages, k, b, chunk, x, used, p);
      } else {
        NewPageAt(cpb, nand', used, pages + [p], k);
      }
    }
  }

  lemma SamePlace(cpb: nat, j: nat, c: nat, k: nat)
    requires cpb > 0 && c < cpb && k < j * cpb + c
    ensures k / cpb != j || k % cpb != c
  {
    RemainderIs(k, cpb);
  }

  lemma PageUsed(cpb: nat, nand: seq<seq<Cell>>, used: seq<nat>, pages: seq<seq<Byte>>, k: nat)
    requires cpb > 0 && k < |pages| && PageAt(cpb, nand, used, pages, k) && forall i, j | 0 <= i < j < |used| ::
        used[i] < used[j]
    ensures k / cpb < |used| && forall j | 0 <= j < |used| && j != k / cpb :: used[j] != used[k / cpb]
  {
  }

  lemma NewPageAt(cpb: nat, nand: seq<seq<Cell>>, used: seq<nat>, pages: seq<seq<Byte>>, k: nat)
    requires cpb > 0 && k < |pages| && k / cpb < |used| && used[k / cpb] < |nand| && k % cpb < |nand[used[k / cpb]]|
    requires nand[used[k / cpb]][k % cpb] == Page(pages[k], used[k / cpb] + 1, k + 1)
    ensures PageAt(cpb, nand, used, pages, k)
  {
  }

  /** A page is the first of a new block, beyond all those used. */
  lemma StreamNewBlock(n: nat, cpb: nat, nand: seq<seq<Cell>>, used: seq<nat>, pages: seq<seq<Byte>>, b: nat,
          p: seq<Byte>)
    requires cpb > 0 && Stream(n, cpb, nand, used, pages) && |p| == n && |pages| == |used| * cpb
    requires b < |nand| && (used != [] ==> used[|used| - 1] < b) && !nand[b][0].Page?
    ensures Stream(n, cpb, Store(nand, b, 0, Page(p, b + 1, |pages| + 1)), used + [b], pages + [p])
  {
    var x := Page(p, b + 1, |pages| + 1);
    var nand' := Store(nand, b, 0, x);
    PlaceOf(cpb, |used|, 0);
    assert forall j | 0 <= j < |used| :: used[j] <= used[|used| - 1];
    hide PageAt;
    forall k | 0 <= k < |pages| + 1
      ensures PageAt(cpb, nand', used + [b], pages + [p], k)
    {
      if k < |pages| {
        PageUsed(cpb, nand, used, pages, k);
        PageKept(cpb, nand, used, pages, k, b, 0, x, used + [b], p);
      } else {
        NewPageAt(cpb, nand', used + [b], pages + [p], k);
      }
    }
    assert (|used| + 1) * cpb == |used| * cpb + cpb;
  }

  // ----- the blocks the stream takes while it is written -----

  /** Since info and used, more blocks have been taken: their states, which were erased, say checkpoint
      now. Nothing else has changed. */
  ghost predicate Taken(info: seq<Byte>, used: seq<nat>, info': seq<Byte>, used': seq<nat>) {
    && |info'| == |info| && used <= used'
    && forall q | 0 <= q < |info| :: TakenAt(info, used, info', used', q)
  }

  predicate TakenAt(info: seq<Byte>, used: seq<nat>, info': seq<Byte>, used': seq<nat>, q: int)
    requires 0 <= q < |info| == |info'|
  {
    info'[q] == info[q] || (IsStateOfTaken(q, used') && info[q] >> 4 == EMPTY
        && info'[q] == WithState(info[q], CHECKPOINT))
  }

  predicate IsStateOfTaken(q: int, used: seq<nat>) {
    q >= 0 && q % INFO_SIZE == 2 && q / INFO_SIZE in used
  }

  lemma TakenNone(info: seq<Byte>, used: seq<nat>)
    ensures Taken(info, used, info, used)
  {
  }

  lemma TakenMore(info: seq<Byte>, used: seq<nat>, info1: seq<Byte>, used1: seq<nat>, info2: seq<Byte>, used2: seq<nat>)
    requires Taken(info, used, info1, used1) && Taken(info1, used1, info2, used2)
    ensures Taken(info, used, info2, used2)
  {
    hide WithState;
    forall q | 0 <= q < |info|
      ensures TakenAt(info, used, info2, used2, q)
    {
      assert TakenAt(info, used, info1, used1, q) && TakenAt(info1, used1, info2, used2, q);
      CheckpointState(info[q]);
    }
  }

  lemma CheckpointState(x: Byte)
    ensures WithState(x, CHECKPOINT) >> 4 == CHECKPOINT != EMPTY
  {
  }

  lemma TakeBlock(info: seq<Byte>, used: seq<nat>, b: nat)
    requires INFO_SIZE * b + 2 < |info| && StateOf(info, b) == EMPTY
    ensures Taken(info, used, SetState(info, b, CHECKPOINT), used + [b])
  {
    var q := INFO_SIZE * b + 2;
    PlaceOf(INFO_SIZE, b, 2);
    assert q == b * INFO_SIZE + 2;
  }

  /** Nothing has changed but the states of blocks, the upper half of the third byte of each, and those only
      of blocks that were erased or held a checkpoint, and are erased or hold one or are bad now. */
  ghost predicate SameButStates(info: seq<Byte>, info': seq<Byte>) {
    |info'| == |info| && forall q | 0 <= q < |info| :: SameButState(info[q], info'[q], q)
  }

  predicate SameButState(x: Byte, y: Byte, q: int) {
    y == x || (q % INFO_SIZE == 2 && y & 0x0F == x & 0x0F
               && x >> 4 in {EMPTY, CHECKPOINT} && y >> 4 in {EMPTY, CHECKPOINT, DEAD})
  }

  lemma StateOnly(x: Byte, s: Byte)
    requires s < 16
    ensures WithState(x, s) & 0x0F == x & 0x0F && WithState(x, s) >> 4 == s
  {
  }

  lemma TakenStates(info0: seq<Byte>, info: seq<Byte>, used: seq<nat>, info': seq<Byte>, used': seq<nat>)
    requires SameButStates(info0, info) && Taken(info, used, info', used')
    ensures SameButStates(info0, info')
  {
    hide WithState;
    forall q | 0 <= q < |info0|
      ensures SameButState(info0[q], info'[q], q)
    {
      assert SameButState(info0[q], info[q], q) && TakenAt(info, used, info', used', q);
      StateOnly(info[q], CHECKPOINT);
    }
  }

  lemma StatesSame(info: seq<Byte>)
    ensures SameButStates(info, info)
  {
  }

  lemma SetStates(info0: seq<Byte>, info: seq<Byte>, b: nat, s: Byte)
    requires SameButStates(info0, info) && INFO_SIZE * b + 2 < |info|
    requires StateOf(info, b) in {EMPTY, CHECKPOINT} && s in {EMPTY, CHECKPOINT, DEAD}
    ensures SameButStates(info0, SetState(info, b, s))
  {
    hide WithState;
    var info' := SetState(info, b, s);
    PlaceOf(INFO_SIZE, b, 2);
    forall q | 0 <= q < |info0|
      ensures SameButState(info0[q], info'[q], q)
    {
      assert SameButState(info0[q], info[q], q);
      StateOnly(info[q], s);
    }
  }

  /** snap was copied byte by byte while blocks were taken: a byte of it is as info has it now, or is the
      state of a block that was still erased when it was copied. */
  ghost predicate Snapshot(snap: seq<Byte>, info: seq<Byte>, used: seq<nat>) {
    |snap| <= |info| && forall q | 0 <= q < |snap| :: SnapAt(snap, info, used, q)
  }

  predicate SnapAt(snap: seq<Byte>, info: seq<Byte>, used: seq<nat>, q: int)
    requires 0 <= q < |snap| <= |info|
  {
    info[q] == snap[q] || (IsStateOfTaken(q, used) && snap[q] >> 4 == EMPTY
        && info[q] == WithState(snap[q], CHECKPOINT))
  }

  lemma SnapshotTaken(snap: seq<Byte>, info: seq<Byte>, used: seq<nat>, info': seq<Byte>, used': seq<nat>)
    requires Snapshot(snap, info, used) && Taken(info, used, info', used')
    ensures Snapshot(snap, info', used')
  {
    hide WithState;
    forall q | 0 <= q < |snap|
      ensures SnapAt(snap, info', used', q)
    {
      assert SnapAt(snap, info, used, q) && TakenAt(info, used, info', used', q);
      CheckpointState(snap[q]);
    }
  }

  /** The elements of s from k on. */
  function From(s: seq<nat>, k: nat): (r: seq<nat>)
    ensures forall b: nat :: b in r <==> b in s && b >= k
  {
    if s == [] then [] else From(s[..|s| - 1], k) + (if s[|s| - 1] >= k then [s[|s| - 1]] else [])
  }

  // ----- the records of a checkpoint -----

  const MAGIC: nat := 0x5941_4FF5
  const CHECKPOINT_VERSION: nat := 4

  /** The marker that opens the stream, and the one that closes it. */
  function Validity(head: bool): (s: seq<Byte>)
    ensures |s| == 16
  {
    Word(16) + Word(MAGIC) + Word(CHECKPOINT_VERSION) + Word(if head then 1 else 0)
  }

  const DEVICE_SIZE: nat := 36

  /** The device record: its size, the counters, and the words that say where allocation goes on and
      what else is to be kept. */
  function DeviceRecord(nErased: nat, alloc: seq<Byte>, nFree: nat, rest: seq<Byte>): (s: seq<Byte>)
    requires nErased < 0x1_0000_0000 && nFree < 0x1_0000_0000 && |alloc| == 8 && |rest| == 16
    ensures |s| == DEVICE_SIZE
  {
    Word(DEVICE_SIZE) + Word(nErased) + alloc + Word(nFree) + rest
  }

  lemma FiveParts(a: seq<Byte>, b: seq<Byte>, c: seq<Byte>, d: seq<Byte>, e: seq<Byte>)
    requires |a| == 4 && |b| == 4 && |c| == 8 && |d| == 4
    ensures var s := a + b + c + d + e; s[..4] == a && s[4..8] == b && s[8..16] == c && s[16..20] == d && s[20..] == e
  {
  }

  predicate DeviceFields(s: seq<Byte>, nErased: nat, alloc: seq<Byte>, nFree: nat, rest: seq<Byte>)
    requires |s| == DEVICE_SIZE
  {
    Unword(s[..4]) == DEVICE_SIZE && Unword(s[4..8]) == nErased && s[8..16] == alloc
    && Unword(s[16..20]) == nFree && s[20..] == rest
  }

  lemma DeviceBack(nErased: nat, alloc: seq<Byte>, nFree: nat, rest: seq<Byte>)
    requires nErased < 0x1_0000_0000 && nFree < 0x1_0000_0000 && |alloc| == 8 && |rest| == 16
    ensures DeviceFields(DeviceRecord(nErased, alloc, nFree, rest), nErased, alloc, nFree, rest)
  {
    hide Word, Unword, ToByte, FromByte;
    var s := DeviceRecord(nErased, alloc, nFree, rest);
    FiveParts(Word(DEVICE_SIZE), Word(nErased), alloc, Word(nFree), rest);
    WordBack(DEVICE_SIZE);
    WordBack(nErased);
    WordBack(nFree);
  }

  /** The whole stream but its checksum. */
  function Body(dev: seq<Byte>, snap: seq<Byte>, bits: seq<Byte>, objects: seq<Byte>): seq<Byte> {
    Validity(true) + dev + snap + bits + objects + Validity(false)
  }

  function WholeStream(body: seq<Byte>): seq<Byte> {
    body + Word(CompositeSum(SumOf(body), XorOf(body)))
  }

  /** The length of the whole stream, with its two markers, the device record and the sum. */
  function StreamSize(nBlocks: nat, nBits: nat, nObjects: nat): nat {
    16 + DEVICE_SIZE + INFO_SIZE * nBlocks + nBits + nObjects + 16 + 4
  }

  // ----- the device while a checkpoint is written -----

  /** Blocks that say checkpoint are those used; erased blocks are blank; no other block looks like part
      of a checkpoint. */
  ghost predicate BlocksOk(info: seq<Byte>, nand: seq<seq<Cell>>, nBlocks: nat, cpb: nat, used: seq<nat>)
  {
    && cpb > 0 && BlankOk(info, nBlocks) && Cells(nand, nBlocks, cpb)
    && (forall b: nat | b < nBlocks :: BlockOk(info, nand, used, b))
  }

  ghost predicate BlockOk(info: seq<Byte>, nand: seq<seq<Cell>>, used: seq<nat>, b: nat)
    requires b < |nand| && INFO_SIZE * b + 2 < |info| && |nand[b]| > 0
  {
    && (b in used <==> StateOf(info, b) == CHECKPOINT)
    && (StateOf(info, b) == EMPTY ==> forall c | 0 <= c < |nand[b]| :: nand[b][c] == Blank)
    && (nand[b][0].Page? ==> b in used)
  }

  ghost predicate CountsOk(info: seq<Byte>, nBlocks: nat, cpb: nat, nErased: int, nFree: int, k: nat) {
    InfoFor(info, nBlocks) && nErased == ErasedBlocks(info, nBlocks) + k
        && nFree == FreeChunks(info, cpb, nBlocks) + k * cpb
  }

  lemma CountsTake(info: seq<Byte>, nBlocks: nat, cpb: nat, nErased: int, nFree: int, k: nat, b: nat)
    requires CountsOk(info, nBlocks, cpb, nErased, nFree, k) && b < nBlocks && StateOf(info, b) == EMPTY
        && BlankOk(info, nBlocks)
    ensures CountsOk(SetState(info, b, CHECKPOINT), nBlocks, cpb, nErased, nFree, k + 1)
        && BlankOk(SetState(info, b, CHECKPOINT), nBlocks)
  {
    var i' := SetState(info, b, CHECKPOINT);
    CountsSetState(info, cpb, b, CHECKPOINT, nBlocks);
    forall c: nat | c < nBlocks
      ensures StateOf(i', c) == (if c == b then CHECKPOINT else StateOf(info, c))
          && PagesInUse(i', c) == PagesInUse(info, c) && SoftDeletions(i', c) == SoftDeletions(info, c)
    {
      SetStateAt(info, b, CHECKPOINT, c);
    }
    assert (k + 1) * cpb == k * cpb + cpb;
  }

  lemma BlocksTake(info: seq<Byte>, nand: seq<seq<Cell>>, nBlocks: nat, cpb: nat, used: seq<nat>, b: nat, x: Cell)
    requires BlocksOk(info, nand, nBlocks, cpb, used) && b < nBlocks && StateOf(info, b) == EMPTY
    requires BlankOk(SetState(info, b, CHECKPOINT), nBlocks)
    ensures BlocksOk(SetState(info, b, CHECKPOINT), Store(nand, b, 0, x), nBlocks, cpb, used + [b])
  {
    var i', nand' := SetState(info, b, CHECKPOINT), Store(nand, b, 0, x);
    forall c: nat | c < nBlocks
      ensures BlockOk(i', nand', used + [b], c)
    {
      SetStateAt(info, b, CHECKPOINT, c);
      assert BlockOk(info, nand, used, c);
      assert c in used + [b] <==> c in used || c == b;
    }
  }

  lemma CountsErase(info: seq<Byte>, nBlocks: nat, cpb: nat, nErased: int, nFree: int, b: nat, s: Byte)
    requires CountsOk(info, nBlocks, cpb, nErased, nFree, 0) && b < nBlocks && StateOf(info, b) == CHECKPOINT
        && BlankOk(info, nBlocks) && s in {EMPTY, DEAD}
    ensures BlankOk(SetState(info, b, s), nBlocks)
    ensures CountsOk(SetState(info, b, s), nBlocks, cpb, if s == EMPTY then nErased + 1 else nErased, if s == EMPTY
        then nFree + cpb else nFree, 0)
  {
    var i' := SetState(info, b, s);
    CountsSetState(info, cpb, b, s, nBlocks);
    forall c: nat | c < nBlocks
      ensures StateOf(i', c) == (if c == b then s else StateOf(info, c)) && PagesInUse(i', c) == PagesInUse(info, c)
          && SoftDeletions(i', c) == SoftDeletions(info, c)
    {
      SetStateAt(info, b, s, c);
    }
  }

  lemma BlocksErase(info: seq<Byte>, nand: seq<seq<Cell>>, nBlocks: nat, cpb: nat, used: seq<nat>, used': seq<nat>,
          b: nat, s: Byte, cells: seq<Cell>)
    requires BlocksOk(info, nand, nBlocks, cpb, used) && b < nBlocks && StateOf(info, b) == CHECKPOINT
        && s in {EMPTY, DEAD}
    requires BlankOk(SetState(info, b, s), nBlocks) && |cells| == cpb && forall c | 0 <= c < cpb ::
        cells[c] == if s == EMPTY then Blank else Other
    requires forall c: nat :: c in used' <==> c in used && c != b
    ensures BlocksOk(SetState(info, b, s), nand[b := cells], nBlocks, cpb, used')
  {
    var i', nand' := SetState(info, b, s), nand[b := cells];
    forall c: nat | c < nBlocks
      ensures BlockOk(i', nand', used', c)
    {
      SetStateAt(info, b, s, c);
      assert BlockOk(info, nand, used, c);
    }
  }

  lemma BlocksSkip(info: seq<Byte>, nand: seq<seq<Cell>>, nBlocks: nat, cpb: nat, used: seq<nat>, used': seq<nat>)
    requires BlocksOk(info, nand, nBlocks, cpb, used) && forall c: nat | c < nBlocks :: c in used' <==> c in used
    ensures BlocksOk(info, nand, nBlocks, cpb, used')
  {
    forall c: nat | c < nBlocks
      ensures BlockOk(info, nand, used', c)
    {
      assert BlockOk(info, nand, used, c);
    }
  }

  lemma EmptyStream(info: seq<Byte>, nand: seq<seq<Cell>>, nBlocks: nat, cpb: nat, n: nat)
    requires BlocksOk(info, nand, nBlocks, cpb, []) && n > 0
    ensures Stream(n, cpb, nand, [], []) && Cursor(cpb, [], 0, -1, -1, 0) && Pages(n, [], Zeros(n), [])
  {
    assert (0 - 1) * cpb < 0;
    forall b: nat | b < nBlocks
      ensures !nand[b][0].Page?
    {
      assert BlockOk(info, nand, [], b);
    }
  }

  lemma BlocksStore(info: seq<Byte>, nand: seq<seq<Cell>>, nBlocks: nat, cpb: nat, used: seq<nat>, b: nat, c: nat,
          x: Cell)
    requires BlocksOk(info, nand, nBlocks, cpb, used) && b in used && b < nBlocks && c < cpb
    ensures BlocksOk(info, Store(nand, b, c, x), nBlocks, cpb, used)
  {
    var nand' := Store(nand, b, c, x);
    forall d: nat | d < nBlocks
      ensures BlockOk(info, nand', used, d)
    {
      assert BlockOk(info, nand, used, d);
      EmptyIsNot(info, b);
    }
  }

  lemma EmptyIsNot(info: seq<Byte>, b: nat)
    requires INFO_SIZE * b + 2 < |info|
    ensures StateOf(info, b) == CHECKPOINT ==> StateOf(info, b) != EMPTY
  {
  }

  class Checkpointer {
    const n: nat
    const cpb: nat
    const nBlocks: nat
    const nReservedBlocks: nat
    var info: seq<Byte>
    var nand: seq<seq<Cell>>
    var nErasedBlocks: int
    var nFreeChunks: int
    var blocksInCheckpoint: nat

    // The stream
    var openForWrite: bool
    var buffer: seq<Byte>
    var byteOffset: nat
    var pageSequence: nat
    var sum: nat
    var xor: Byte
    var currentBlock: int
    var currentChunk: int
    var nextBlock: int
    var maxBlocks: nat
    var blockList: seq<nat>

    /** What has been written since the stream was opened, the pages it went to and the blocks they are in. */
    ghost var written: seq<Byte>
    ghost var pages: seq<seq<Byte>>
    ghost var used: seq<nat>
    /** NAND when the stream had been opened. */
    ghost var atOpening: seq<seq<Cell>>
    /** Bytes put behind the page in the buffer. */
    ghost var beyond: seq<Byte>
    /** What has been read. */
    ghost var read: seq<Byte>

    /** A device whose blocks are all erased. */
    constructor (n: nat, cpb: nat, nBlocks: nat, nReservedBlocks: nat)
      requires n > 0 && cpb > 0
      ensures Settled() && used == [] && this.n == n && this.cpb == cpb && this.nBlocks == nBlocks
          && this.nReservedBlocks == nReservedBlocks
      ensures forall b: nat | b < nBlocks :: InfoFor(info, nBlocks) && StateOf(info, b) == EMPTY
    {
      this.n, this.cpb, this.nBlocks, this.nReservedBlocks := n, cpb, nBlocks, nReservedBlocks;
      var blank: seq<Byte> := seq(INFO_SIZE * nBlocks, q => if q % INFO_SIZE == 2 then WithState(0, EMPTY) else 0);
      info := blank;
      nand := seq(nBlocks, b => seq(cpb, c => Blank));
      nErasedBlocks, nFreeChunks, blocksInCheckpoint := ErasedBlocks(blank, nBlocks), FreeChunks(blank, cpb, nBlocks),
          0;
      openForWrite, buffer, byteOffset, pageSequence, sum, xor := false, [], 0, 0, 0, 0;
      currentBlock, currentChunk, nextBlock, maxBlocks, blockList := -1, -1, 0, 0, [];
      written, pages, used, read, atOpening, beyond := [], [], [], [], [], [];
      new;
      hide WithState, StateOf, PagesInUse, SoftDeletions;
      forall b: nat | b < nBlocks
        ensures StateOf(info, b) == EMPTY && PagesInUse(info, b) == 0 && SoftDeletions(info, b) == 0
      {
        PlaceOf(INFO_SIZE, b, 0);
        PlaceOf(INFO_SIZE, b, 1);
        PlaceOf(INFO_SIZE, b, 2);
        assert info[INFO_SIZE * b] == 0 && info[INFO_SIZE * b + 1] == 0
            && info[INFO_SIZE * b + 2] == WithState(0, EMPTY);
        ErasedInfo(info, b);
      }
    }

    /** The blocks and the counters, whatever has become of the stream. */
    ghost predicate Books()
      reads `info, `nand, `nErasedBlocks, `nFreeChunks, `blocksInCheckpoint, `used, `atOpening
    {
      && n > 0 && cpb > 0 && BlocksOk(info, nand, nBlocks, cpb, used) && blocksInCheckpoint == |used|
      && KeptCells(atOpening, nand, used)
      && CountsOk(info, nBlocks, cpb, nErasedBlocks, nFreeChunks, |used|)
    }

    ghost predicate AtPage()
      reads `info, `nand, `nErasedBlocks, `nFreeChunks, `blocksInCheckpoint, `used, `atOpening, `pages, `currentBlock,
          `currentChunk, `nextBlock, `pageSequence, `buffer
    {
      && nErasedBlocks > nReservedBlocks && NoneErasedBelow(info, nBlocks, nextBlock)
      && Books() && Stream(n, cpb, nand, used, pages)
          && Cursor(cpb, used, |pages|, currentBlock, currentChunk, nextBlock)
      && pageSequence == |pages| && |buffer| == n
    }

    ghost predicate Writing()
      reads this
    {
      && AtPage() && Pages(n, pages, buffer, written) && byteOffset == |written| - Start(n, |pages|)
      && sum == SumOf(written) && xor == XorOf(written) && openForWrite && beyond == []
    }

    /** One more byte has been put into the buffer. */
    ghost predicate Filling()
      reads this
    {
      && AtPage() && openForWrite && 0 < byteOffset <= n && sum == SumOf(written) && xor == XorOf(written)
          && beyond == []
      && if byteOffset < n then Pages(n, pages, buffer, written) && byteOffset == |written| - Start(n, |pages|)
         else |written| == Start(n, |pages| + 1) && Pages(n, pages + [buffer], Zeros(n), written)
    }

    /** No erased block is left for a further page. */
    ghost predicate NoBlockLeft()
      reads `info, `nand, `nErasedBlocks, `nFreeChunks, `blocksInCheckpoint, `used, `atOpening, `currentBlock,
          `nextBlock
    {
      Books() && NoneErasedBelow(info, nBlocks, nBlocks) && currentBlock == -1 && nextBlock == -1
    }

    /** The flush of a full page has failed for want of a block. The page is still in the buffer, and what has been put
        in since then lies behind it. */
    ghost predicate Stuck()
      reads `info, `nand, `nErasedBlocks, `nFreeChunks, `blocksInCheckpoint, `used, `atOpening, `written, `currentBlock,
          `nextBlock, `byteOffset, `buffer, `beyond
    {
      && NoBlockLeft() && byteOffset >= n == |buffer| && |beyond| == byteOffset - n
      && |written| == Start(n, |used| * cpb) + byteOffset
    }

    /** The first erased block from checkpointNextBlock on. */
    method FindNextErasedBlock()
      requires InfoFor(info, nBlocks)
      modifies `currentBlock, `nextBlock
      ensures -1 <= currentBlock < nBlocks && (old(nextBlock) < 0 ==> currentBlock < 0)
      ensures currentBlock >= 0 ==>
          old(nextBlock) <= currentBlock && nextBlock == currentBlock + 1 && StateOf(info, currentBlock) == EMPTY
      ensures currentBlock >= 0 ==> forall b: nat | old(nextBlock) <= b < currentBlock :: StateOf(info, b) != EMPTY
      ensures currentBlock < 0 && old(nextBlock) >= 0 && nErasedBlocks > nReservedBlocks ==>
          forall b: nat | old(nextBlock) <= b < nBlocks :: StateOf(info, b) != EMPTY
      ensures currentBlock < 0 ==> nextBlock == -1
    {
      var blocksAvailable := nErasedBlocks - nReservedBlocks;
      if 0 <= nextBlock < nBlocks && blocksAvailable > 0 {
        var i: nat := nextBlock;
        while i < nBlocks
          invariant old(nextBlock) <= i <= nBlocks && nextBlock == old(nextBlock)
          invariant forall b: nat | old(nextBlock) <= b < i :: StateOf(info, b) != EMPTY
        {
          if StateOf(info, i) == EMPTY {
            nextBlock := i + 1;
            currentBlock := i;
            return;
          }
          i := i + 1;
        }
      }
      nextBlock := -1;
      currentBlock := -1;
    }

    /** The block that has just been found becomes part of the checkpoint with its first page. */
    method FirstPage()
      requires Books() && Stream(n, cpb, nand, used, pages) && |pages| == |used| * cpb && pageSequence == |pages|
          && |buffer| == n
      requires 0 <= currentBlock < nBlocks && StateOf(info, currentBlock) == EMPTY && nextBlock == currentBlock + 1
      requires used != [] ==> used[|used| - 1] < currentBlock
      requires NoneErasedBelow(info, nBlocks, currentBlock)
      modifies `info, `nand, `blocksInCheckpoint, `pages, `used
      ensures NoneErasedBelow(info, nBlocks, nextBlock)
      ensures Books() && Stream(n, cpb, nand, used, pages) && pages == old(pages) + [buffer]
          && used == old(used) + [currentBlock]
      ensures Taken(old(info), old(used), info, used)
    {
      hide BlocksOk, CountsOk, Stream, Taken, SetState, StateOf, NoneErasedBelow;
      var b: nat := currentBlock;
      var x := Page(buffer, nextBlock, pageSequence + 1);
      EmptyBlock(info, nand, nBlocks, cpb, used, b);
      CountsTake(info, nBlocks, cpb, nErasedBlocks, nFreeChunks, |used|, b);
      BlocksTake(info, nand, nBlocks, cpb, used, b, x);
      TakeBlock(info, used, b);
      BelowTaken(info, nBlocks, b);
      StreamNewBlock(n, cpb, nand, used, pages, b, buffer);
      info := SetState(info, b, CHECKPOINT);
      blocksInCheckpoint := blocksInCheckpoint + 1;
      nand := Store(nand, b, 0, x);
      used := used + [b];
      pages := pages + [buffer];
    }

    static lemma EmptyBlock(info: seq<Byte>, nand: seq<seq<Cell>>, nBlocks: nat, cpb: nat, used: seq<nat>, b: nat)
      requires BlocksOk(info, nand, nBlocks, cpb, used) && b < nBlocks && StateOf(info, b) == EMPTY
      ensures Cells(nand, nBlocks, cpb) && nand[b][0] == Blank && InfoFor(info, nBlocks) && BlankOk(info, nBlocks)
    {
      assert BlockOk(info, nand, used, b);
    }

    static lemma BelowTaken(info: seq<Byte>, nBlocks: nat, b: nat)
      requires NoneErasedBelow(info, nBlocks, b) && b < nBlocks
      ensures NoneErasedBelow(SetState(info, b, CHECKPOINT), nBlocks, b + 1)
    {
      forall c: nat | c < b + 1
        ensures StateOf(SetState(info, b, CHECKPOINT), c) != EMPTY
      {
        SetStateAt(info, b, CHECKPOINT, c);
      }
    }

    /** A further page of the block last used. */
    method MorePage()
      requires AtPage() && currentBlock >= 0
      modifies `nand, `pages
      ensures Books() && Stream(n, cpb, nand, used, pages) && pages == old(pages) + [buffer]
    {
      hide BlocksOk, CountsOk, Stream;
      var x := Page(buffer, nextBlock, pageSequence + 1);
      UsedBlock(info, nand, nBlocks, cpb, used, pages, n, |used| - 1);
      BlocksStore(info, nand, nBlocks, cpb, used, currentBlock, currentChunk, x);
      StreamInBlock(n, cpb, nand, used, pages, currentChunk, buffer);
      nand := Store(nand, currentBlock, currentChunk, x);
      pages := pages + [buffer];
    }

    static lemma UsedBlock(info: seq<Byte>, nand: seq<seq<Cell>>, nBlocks: nat, cpb: nat, used: seq<nat>,
            pages: seq<seq<Byte>>, n: nat, j: nat)
      requires BlocksOk(info, nand, nBlocks, cpb, used) && Stream(n, cpb, nand, used, pages) && j < |used|
      ensures Cells(nand, nBlocks, cpb) && used[j] < nBlocks && used[j] in used
    {
    }

    static lemma CursorFirst(cpb: nat, used: seq<nat>, b: nat)
      requires cpb > 0
      ensures Cursor(cpb, used + [b], |used| * cpb + 1, if cpb > 1 then b else -1, if cpb > 1 then 1 else 0, b + 1)
    {
      assert (|used| + 1) * cpb == |used| * cpb + cpb;
    }

    static lemma CursorMore(cpb: nat, used: seq<nat>, nPages: nat, block: int, chunk: int, next: int)
      requires Cursor(cpb, used, nPages, block, chunk, next) && block >= 0
      ensures Cursor(cpb, used, nPages + 1, if chunk + 1 < cpb then block else -1, if chunk + 1 < cpb then chunk + 1
          else 0, next)
    {
      assert (|used| - 1) * cpb + cpb == |used| * cpb;
    }

    static lemma CursorBetween(cpb: nat, used: seq<nat>, nPages: nat, block: int, chunk: int, next: int)
      requires Cursor(cpb, used, nPages, block, chunk, next)
      ensures block < 0 ==> nPages == |used| * cpb && next == if used == [] then 0 else used[|used| - 1] + 1
      ensures block >= 0 ==> chunk > 0
    {
    }

    /** Take an erased block for the next page, if the last block is full. */
    method FindBlock() returns (ok: bool)
      requires (AtPage() && currentBlock < 0) || NoBlockLeft()
      modifies `currentBlock, `nextBlock, `info, `nand, `blocksInCheckpoint, `pages, `used
      ensures Books() && Taken(old(info), old(used), info, used)
      ensures ok ==> Stream(n, cpb, nand, used, pages) && pages == old(pages) + [buffer] && Cursor(cpb, used, |pages|, if cpb > 1 then currentBlock else -1, if cpb > 1 then 1 else 0, nextBlock)
      ensures ok ==> currentBlock >= 0 && NoneErasedBelow(info, nBlocks, nextBlock)
      ensures !ok ==> info == old(info) && nand == old(nand) && used == old(used) && pages == old(pages)
      ensures !ok ==> NoBlockLeft() && (old(AtPage()) ==> |pages| == |used| * cpb)
      ensures old(NoBlockLeft()) ==> !ok
    {
      hide BlocksOk, CountsOk, Stream, Taken, Cursor;
      TakenNone(info, used);
      BooksInfo(info, nand, nBlocks, cpb, used);
      if AtPage() {
        CursorBetween(cpb, used, |pages|, currentBlock, currentChunk, nextBlock);
      }
      FindNextErasedBlock();
      if currentBlock < 0 {
        return false;
      }
      CursorFirst(cpb, used, currentBlock);
      FirstPage();
      return true;
    }

    lemma AtPageParts()
      requires AtPage()
      ensures n > 0 && cpb > 0 && Books() && Stream(n, cpb, nand, used, pages)
          && Cursor(cpb, used, |pages|, currentBlock, currentChunk, nextBlock)
      ensures pageSequence == |pages| && |buffer| == n
      ensures nErasedBlocks > nReservedBlocks && NoneErasedBelow(info, nBlocks, nextBlock)
    {
    }

    lemma AtPageFrom()
      requires nErasedBlocks > nReservedBlocks && NoneErasedBelow(info, nBlocks, nextBlock)
      requires n > 0 && cpb > 0 && Books() && Stream(n, cpb, nand, used, pages)
          && Cursor(cpb, used, |pages|, currentBlock, currentChunk, nextBlock)
      requires pageSequence == |pages| && |buffer| == n
      ensures AtPage()
    {
    }

    lemma NoBlockParts()
      ensures NoBlockLeft() ==> Books() && currentBlock == -1 && !AtPage()
    {
    }

    /** Write the buffer as the next page. It fails when no erased block is left to take. */
    method FlushBuffer() returns (ok: bool)
      requires AtPage() || NoBlockLeft()
      modifies this
      ensures nErasedBlocks == old(nErasedBlocks) && nFreeChunks == old(nFreeChunks) && atOpening == old(atOpening)
      ensures Books() && Taken(old(info), old(used), info, used) && openForWrite == old(openForWrite) && sum == old(sum)
          && xor == old(xor) && written == old(written)
      ensures ok ==> AtPage() && pages == old(pages) + [old(buffer)] && byteOffset == 0 && buffer == Zeros(n)
      ensures !ok ==> info == old(info) && nand == old(nand) && used == old(used) && pages == old(pages)
      ensures !ok ==> byteOffset == old(byteOffset) && buffer == old(buffer) && beyond == old(beyond)
      ensures !ok ==> NoBlockLeft() && (old(AtPage()) ==> |pages| == |used| * cpb)
      ensures old(NoBlockLeft()) ==> !ok
      ensures ok ==> beyond == old(beyond)
    {
      hide BlocksOk, CountsOk, Stream, Taken, Cursor, AtPage, Books, Zeros, NoneErasedBelow, NoBlockLeft;
      TakenNone(info, used);
      NoBlockParts();
      if AtPage() {
        AtPageParts();
        CursorBetween(cpb, used, |pages|, currentBlock, currentChunk, nextBlock);
      }
      if currentBlock < 0 {
        ok := FindBlock();
        if !ok {
          return;
        }
        currentChunk := 0;
      } else {
        CursorMore(cpb, used, |pages|, currentBlock, currentChunk, nextBlock);
        MorePage();
      }
      Advance();
      AtPageFrom();
      return true;
    }

    /** The page has been written: the next one is the next chunk of the block, if it has one. */
    method Advance()
      modifies `byteOffset, `pageSequence, `currentChunk, `currentBlock, `buffer
      ensures byteOffset == 0 && pageSequence == old(pageSequence) + 1 && buffer == Zeros(n)
      ensures currentChunk == (if old(currentChunk) + 1 < cpb then old(currentChunk) + 1 else 0)
      ensures currentBlock == (if old(currentChunk) + 1 < cpb then old(currentBlock) else -1)
    {
      byteOffset := 0;
      pageSequence := pageSequence + 1;
      currentChunk := currentChunk + 1;
      if currentChunk >= cpb {
        currentChunk := 0;
        currentBlock := -1;
      }
      buffer := Zeros(n);
    }

    static lemma BooksInfo(info: seq<Byte>, nand: seq<seq<Cell>>, nBlocks: nat, cpb: nat, used: seq<nat>)
      requires BlocksOk(info, nand, nBlocks, cpb, used)
      ensures InfoFor(info, nBlocks)
    {
    }

    // ----- writing -----

    /** Put one byte into the stream, or, when a flush has failed before, behind the page that is waiting. */
    method WriteByte(b: Byte) returns (ok: bool)
      requires Writing() || Stuck()
      modifies this
      ensures nErasedBlocks == old(nErasedBlocks) && nFreeChunks == old(nFreeChunks) && atOpening == old(atOpening)
      ensures Books() && Taken(old(info), old(used), info, used)
      ensures ok ==> Writing() && old(Writing())
      ensures !ok ==> Stuck() && (old(Writing()) ==> byteOffset == n)
      ensures old(Stuck()) ==> !ok && used == old(used) && byteOffset == old(byteOffset) + 1
      ensures written == old(written) + [b]
    {
      hide Stuck, Taken, Pages, SumOf, XorOf, Writing, AtPage, Books, Zeros, FromByte, Start;
      NotBoth();
      if Writing() {
        NextByte(b);
      }
      Produce(b);
      ok := FlushIfFull();
    }

    lemma NotBoth()
      ensures !(AtPage() && Stuck()) && (Writing() ==> AtPage())
          && (Stuck() ==> NoBlockLeft() && byteOffset >= n == |buffer|)
    {
    }

    /** What the stream will be like with one more byte. */
    lemma NextByte(b: Byte)
      requires Writing()
      ensures AtPage() && openForWrite && n > 0 && byteOffset < n == |buffer| && beyond == []
      ensures (sum + FromByte(b)) % 0x1_0000_0000 == SumOf(written + [b]) && xor ^ b == XorOf(written + [b])
      ensures if byteOffset + 1 < n then Pages(n, pages, buffer[byteOffset := b], written + [b]) && byteOffset + 1 == |written + [b]| - Start(n, |pages|)
              else |written + [b]| == Start(n, |pages| + 1) && Pages(n, pages + [buffer[byteOffset := b]], Zeros(n), written + [b])
    {
      SumMore(written, b);
      ByteWritten(n, pages, buffer, written, byteOffset, b);
    }

    /** Write the buffer when its last byte has been filled. */
    method FlushIfFull() returns (ok: bool)
      requires Filling() || Stuck()
      modifies this
      ensures nErasedBlocks == old(nErasedBlocks) && nFreeChunks == old(nFreeChunks) && atOpening == old(atOpening)
      ensures Books() && Taken(old(info), old(used), info, used)
      ensures ok ==> Writing() && old(Filling())
      ensures !ok ==> Stuck() && (old(Filling()) ==> byteOffset == n)
      ensures old(Stuck()) ==> !ok && used == old(used) && byteOffset == old(byteOffset)
      ensures written == old(written)
    {
      hide Stream, Taken, Cursor, Pages, SumOf, XorOf, Writing, AtPage, Books, Zeros, NoneErasedBelow;
      NotBoth();
      if Filling() {
        AtPageParts();
        assert Start(n, |pages| + 1) == Start(n, |pages|) + n;
      }
      if byteOffset >= n {
        ok := FlushBuffer();
        if ok {
          WritingFrom();
        }
      } else {
        TakenNone(info, used);
        WritingFrom();
        ok := true;
      }
    }

    lemma WritingFrom()
      requires AtPage() && openForWrite && beyond == []
      requires Pages(n, pages, buffer, written) && byteOffset == |written| - Start(n, |pages|) && sum == SumOf(written)
          && xor == XorOf(written)
      ensures Writing()
    {
    }

    method Produce(b: Byte)
      requires |buffer| == n
      modifies `sum, `xor, `byteOffset, `buffer, `beyond, `written
      ensures sum == (old(sum) + FromByte(b)) % 0x1_0000_0000 && xor == old(xor) ^ b
          && byteOffset == old(byteOffset) + 1
      ensures old(byteOffset) < n ==> buffer == old(buffer)[old(byteOffset) := b] && beyond == old(beyond)
      ensures written == old(written) + [b] && (old(AtPage()) ==> AtPage()) && (old(Stuck()) ==> Stuck())
    {
      hide Books, Stream, Cursor, NoneErasedBelow, FromByte, Start;
      if byteOffset < n {
        buffer := buffer[byteOffset := b];
      } else {
        beyond := beyond + [b];
      }
      sum := (sum + FromByte(b)) % 0x1_0000_0000;
      xor := xor ^ b;
      byteOffset := byteOffset + 1;
      written := written + [b];
    }

    /** Write the bytes of a record, until a flush fails. If that happens on its last byte it does not show; then
        only one byte of the next record is taken. */
    method CheckpointWrite(data: seq<Byte>) returns (ok: bool)
      requires Writing() || Stuck()
      modifies this
      ensures nErasedBlocks == old(nErasedBlocks) && nFreeChunks == old(nFreeChunks) && atOpening == old(atOpening)
      ensures Books() && Taken(old(info), old(used), info, used) && (Writing() || Stuck())
      ensures Writing() ==> ok && old(Writing()) && written == old(written) + data
      ensures if ok then |written| == |old(written)| + |data| else Stuck() && |written| < |old(written)| + |data|
      ensures Stuck() && old(Writing()) ==> byteOffset == n
      ensures old(Stuck()) ==> Stuck() && used == old(used) && byteOffset == old(byteOffset) + if data == [] then 0
          else 1
      ensures old(Stuck()) ==> (ok <==> |data| <= 1)
    {
      hide Stuck, BlocksOk, CountsOk, Stream, Taken, Cursor, Pages, SumOf, XorOf, Writing, Books;
      TakenNone(info, used);
      BothBooks();
      var more := true;
      var i := 0;
      while i < |data| && more
        invariant 0 <= i <= |data| && Books() && Taken(old(info), old(used), info, used)
        invariant if more && i == 0 then Writing() == old(Writing()) && Stuck() == old(Stuck()) && used == old(used)
                                         && byteOffset == old(byteOffset)
                  else if more then Writing() && old(Writing()) else Stuck() && i > 0
        invariant !more && old(Writing()) ==> byteOffset == n
        invariant old(Stuck()) && !more ==> used == old(used) && byteOffset == old(byteOffset) + 1 && i == 1
        invariant written == old(written) + data[..i]
        invariant nErasedBlocks == old(nErasedBlocks) && nFreeChunks == old(nFreeChunks) && atOpening == old(atOpening)
        decreases |data| - i, more
      {
        ghost var f, u := info, used;
        more := WriteByte(data[i]);
        TakenMore(old(info), old(used), f, u, info, used);
        i := i + 1;
      }
      BothBooks();
      ok := i == |data|;
      assert data[..|data|] == data;
    }

    lemma BothBooks()
      ensures (Writing() || Stuck() ==> Books() && n > 0) && !(Writing() && Stuck())
    {
    }

    /** Write the block information from where it lies, while the blocks taken for it change there. */
    method WriteBlockInfo() returns (ok: bool, ghost snap: seq<Byte>)
      requires Writing() || Stuck()
      modifies this
      ensures nErasedBlocks == old(nErasedBlocks) && nFreeChunks == old(nFreeChunks) && atOpening == old(atOpening)
      ensures Books() && Taken(old(info), old(used), info, used) && (Writing() || Stuck())
      ensures Writing() ==> ok && old(Writing()) && written == old(written) + snap
      ensures Writing() ==> |snap| == |info| && Snapshot(snap, info, used)
      ensures if ok then |written| == |old(written)| + |old(info)|
          else Stuck() && |written| < |old(written)| + |old(info)|
    {
      hide Stuck, BlocksOk, CountsOk, Stream, Taken, Cursor, Pages, SumOf, XorOf, Writing, Books, Snapshot;
      TakenNone(info, used);
      BothBooks();
      NothingCopied(info, used);
      TakenSize(info, used, info, used);
      snap := [];
      var more := true;
      var i := 0;
      while i < |info| && more
        invariant 0 <= i <= |info| == |old(info)| && Books() && Taken(old(info), old(used), info, used)
        invariant if more && i == 0 then Writing() == old(Writing()) && Stuck() == old(Stuck())
                  else if more then Writing() && old(Writing()) else Stuck()
        invariant more ==> written == old(written) + snap && |snap| == i && Snapshot(snap, info, used)
        invariant |written| == |old(written)| + i
        invariant nErasedBlocks == old(nErasedBlocks) && nFreeChunks == old(nFreeChunks) && atOpening == old(atOpening)
        decreases |info| - i, more
      {
        ghost var f, u := info, used;
        more := WriteByte(info[i]);
        TakenMore(old(info), old(used), f, u, info, used);
        TakenSize(f, u, info, used);
        if more {
          CopiedMore(snap, f, u);
          SnapshotTaken(snap + [f[i]], f, u, info, used);
          snap := snap + [f[i]];
        }
        i := i + 1;
      }
      BothBooks();
      ok := i == |info|;
    }

    static lemma NothingCopied(info: seq<Byte>, used: seq<nat>)
      ensures Snapshot([], info, used)
    {
    }

    static lemma TakenSize(info: seq<Byte>, used: seq<nat>, info': seq<Byte>, used': seq<nat>)
      requires Taken(info, used, info', used')
      ensures |info'| == |info|
    {
    }

    static lemma CopiedMore(snap: seq<Byte>, info: seq<Byte>, used: seq<nat>)
      requires Snapshot(snap, info, used) && |snap| < |info|
      ensures Snapshot(snap + [info[|snap|]], info, used)
    {
      var s' := snap + [info[|snap|]];
      forall q | 0 <= q < |s'|
        ensures SnapAt(s', info, used, q)
      {
        assert q < |snap| ==> SnapAt(snap, info, used, q);
      }
    }

    // ----- opening and closing for writing -----

    /** No stream is open: the counters are those of the blocks as they are. */
    ghost predicate Settled()
      reads `info, `nand, `nErasedBlocks, `nFreeChunks, `used
    {
      n > 0 && cpb > 0 && BlocksOk(info, nand, nBlocks, cpb, used)
          && CountsOk(info, nBlocks, cpb, nErasedBlocks, nFreeChunks, 0)
    }

    /** The blocks of the last checkpoint are erased. One that cannot be erased is marked bad. */
    method CheckpointErase(erases: iset<nat>)
      requires Settled()
      modifies `info, `nand, `nErasedBlocks, `nFreeChunks, `blocksInCheckpoint, `used
      ensures InfoFor(old(info), nBlocks) && InfoFor(info, nBlocks)
      ensures forall b: nat | b < nBlocks :: StateOf(info, b) == AfterErase(old(info), erases, b)
      ensures OthersKept(old(info), old(nand), nand, nBlocks) && nErasedBlocks == Erasable(old(info), erases, nBlocks)
      ensures Settled() && used == [] && blocksInCheckpoint == 0 && SameButStates(old(info), info)
      ensures old(nErasedBlocks) <= nErasedBlocks <= old(nErasedBlocks) + nBlocks
          && old(nFreeChunks) <= nFreeChunks <= old(nFreeChunks) + nBlocks * cpb
    {
      hide BlocksOk, CountsOk, SetState, StateOf, From, SameButStates;
      ghost var used0 := used;
      NandSize(info, nand, nBlocks, cpb, used);
      StatesSame(info);
      BooksInfo(info, nand, nBlocks, cpb, used);
      used := From(used0, 0);
      BlocksSkip(info, nand, nBlocks, cpb, used0, used);
      var i := 0;
      while i < nBlocks
        invariant 0 <= i <= nBlocks && Settled() && used == From(used0, i) && InfoFor(info, nBlocks)
            && Cells(nand, nBlocks, cpb)
        invariant SameButStates(old(info), info)
        invariant forall b: nat | b < nBlocks ::
            StateOf(info, b) == if b < i then AfterErase(old(info), erases, b) else StateOf(old(info), b)
        invariant OthersKept(old(info), old(nand), nand, nBlocks)
        invariant old(nErasedBlocks) <= nErasedBlocks <= old(nErasedBlocks) + i
            && old(nFreeChunks) <= nFreeChunks <= old(nFreeChunks) + i * cpb
      {
        assert (i + 1) * cpb == i * cpb + cpb;
        InUsed(info, nand, nBlocks, cpb, used, i);
        if StateOf(info, i) == CHECKPOINT {
          var erased := i in erases;
          var s := if erased then EMPTY else DEAD;
          var cells: seq<Cell> := seq(cpb, c => if erased then Blank else Other);
          BlankState(info, nand, nBlocks, cpb, used);
          CountsErase(info, nBlocks, cpb, nErasedBlocks, nFreeChunks, i, s);
          BlocksErase(info, nand, nBlocks, cpb, used, From(used0, i + 1), i, s, cells);
          SetStates(old(info), info, i, s);
          StatesSet(info, nBlocks, i, s);
          info := SetState(info, i, s);
          nand := nand[i := cells];
          if erased {
            nErasedBlocks := nErasedBlocks + 1;
            nFreeChunks := nFreeChunks + cpb;
          }
          BooksInfo(info, nand, nBlocks, cpb, From(used0, i + 1));
        } else {
          BlocksSkip(info, nand, nBlocks, cpb, used, From(used0, i + 1));
        }
        used := From(used0, i + 1);
        i := i + 1;
      }
      BlocksSkip(info, nand, nBlocks, cpb, used, []);
      used := [];
      blocksInCheckpoint := 0;
      ErasedNow(old(info), info, erases, nBlocks);
      CountsErased(info, nBlocks, cpb, nErasedBlocks, nFreeChunks);
    }

    static lemma StatesSet(info: seq<Byte>, nBlocks: nat, b: nat, s: Byte)
      requires InfoFor(info, nBlocks) && b < nBlocks && s < 16
      ensures InfoFor(SetState(info, b, s), nBlocks)
      ensures forall c: nat | c < nBlocks :: StateOf(SetState(info, b, s), c) == if c == b then s else StateOf(info, c)
    {
      forall c: nat | c < nBlocks
        ensures StateOf(SetState(info, b, s), c) == if c == b then s else StateOf(info, c)
      {
        SetStateAt(info, b, s, c);
      }
    }

    static lemma CountsErased(info: seq<Byte>, nBlocks: nat, cpb: nat, nErased: int, nFree: int)
      requires CountsOk(info, nBlocks, cpb, nErased, nFree, 0)
      ensures InfoFor(info, nBlocks) && nErased == ErasedBlocks(info, nBlocks) >= 0
    {
      ErasedNotNegative(info, nBlocks);
    }

    static lemma InUsed(info: seq<Byte>, nand: seq<seq<Cell>>, nBlocks: nat, cpb: nat, used: seq<nat>, b: nat)
      requires BlocksOk(info, nand, nBlocks, cpb, used) && b < nBlocks
      ensures InfoFor(info, nBlocks) && (b in used <==> StateOf(info, b) == CHECKPOINT)
    {
      assert BlockOk(info, nand, used, b);
    }

    static lemma BlankState(info: seq<Byte>, nand: seq<seq<Cell>>, nBlocks: nat, cpb: nat, used: seq<nat>)
      requires BlocksOk(info, nand, nBlocks, cpb, used)
      ensures BlankOk(info, nBlocks)
    {
    }

    /** Open the stream for writing, if there is an erased block to spare. */
    method OpenForWriting(erases: iset<nat>) returns (ok: bool)
      requires Settled()
      modifies this
      ensures ok <==> old(nErasedBlocks) > nReservedBlocks
      ensures InfoFor(old(info), nBlocks) && OthersKept(old(info), old(nand), atOpening, nBlocks)
      ensures ok ==> nErasedBlocks == Erasable(old(info), erases, nBlocks)
      ensures InfoFor(info, nBlocks)
      ensures ok ==> forall b: nat | b < nBlocks :: StateOf(info, b) == AfterErase(old(info), erases, b)
      ensures !ok ==> info == old(info) && nand == old(nand) && used == old(used)
      ensures !ok ==> nErasedBlocks == old(nErasedBlocks) && nFreeChunks == old(nFreeChunks)
      ensures ok ==> Writing() && written == [] && used == [] && SameButStates(old(info), info)
      ensures old(nErasedBlocks) <= nErasedBlocks <= old(nErasedBlocks) + nBlocks
          && old(nFreeChunks) <= nFreeChunks <= old(nFreeChunks) + nBlocks * cpb
      ensures !ok ==> Settled()
    {
      hide Settled, OthersKept, NoneErasedBelow, Erasable, AfterErase, StateOf, Writing, SameButStates, BlocksOk,
          CountsOk,
          Zeros;
      SettledParts();
      openForWrite := true;
      BooksInfo(info, nand, nBlocks, cpb, used);
      OthersSame(info, nand, nBlocks, cpb, used);
      atOpening := nand;
      if nErasedBlocks - nReservedBlocks <= 0 {
        return false;
      }
      StartStream();
      buffer := Zeros(n);
      byteOffset := 0;
      CheckpointErase(erases);
      atOpening, beyond := nand, [];
      StartWriting();
      return true;
    }

    /** The stream is at its beginning. */
    method StartStream()
      modifies `pageSequence, `sum, `xor, `currentBlock, `currentChunk, `nextBlock, `written, `pages, `read
      ensures pageSequence == 0 && sum == 0 && xor == 0 && currentBlock == -1 && currentChunk == -1 && nextBlock == 0
      ensures openForWrite ==> written == [] && pages == []
      ensures !openForWrite ==> read == [] && written == old(written) && pages == old(pages)
    {
      pageSequence, sum, xor := 0, 0, 0;
      currentBlock, currentChunk, nextBlock := -1, -1, 0;
      if openForWrite {
        written, pages := [], [];
      } else {
        read := [];
      }
    }

    lemma StartWriting()
      requires Settled() && used == [] && pages == [] && written == [] && blocksInCheckpoint == 0
      requires openForWrite && pageSequence == 0 && sum == 0 && xor == 0 && byteOffset == 0 && buffer == Zeros(n)
      requires currentBlock == -1 && currentChunk == -1 && nextBlock == 0
      requires nErasedBlocks > nReservedBlocks && atOpening == nand && beyond == []
      ensures Writing()
    {
      hide BlocksOk, Stream, Cursor, Pages;
      EmptyStream(info, nand, nBlocks, cpb, n);
      BooksInfo(info, nand, nBlocks, cpb, used);
    }

    /** What a checkpoint leaves on NAND. */
    ghost predicate Recorded()
      reads `nand, `pages, `used, `written
    {
      n > 0 && cpb > 0 && |nand| == nBlocks && Stream(n, cpb, nand, used, pages) && Holds(n, pages, written)
    }

    /** Write what is left in the buffer, and take the blocks used out of the counts. Whether the flush was done, and
        the stream is complete, nobody asks. */
    method CloseForWriting() returns (complete: bool)
      requires Writing() || Stuck()
      modifies this
      ensures nErasedBlocks == old(nErasedBlocks) - |used| && nFreeChunks == old(nFreeChunks) - |used| * cpb
      ensures Settled() && Taken(old(info), old(used), info, used) && blocksInCheckpoint == |used|
      ensures complete ==> Recorded() && |written| <= Start(n, |used| * cpb) && old(Writing())
      ensures !complete ==> NoneErasedBelow(info, nBlocks, nBlocks) && nErasedBlocks == 0
      ensures !complete ==> |written| > Start(n, |used| * cpb)
      ensures !complete && old(Writing()) ==> |written| <= Start(n, |used| * cpb + 1)
      ensures old(Stuck()) ==> !complete && used == old(used)
      ensures written == old(written) && atOpening == old(atOpening) && KeptCells(atOpening, nand, used)
    {
      hide NoneErasedBelow, BlocksOk, CountsOk, Stream, Taken, Cursor, Pages, SumOf, XorOf, Holds, Start;
      TakenNone(info, used);
      NotBoth();
      complete := true;
      ghost var writing := Writing();
      if writing {
        LastPageHeld(n, pages, buffer, written, byteOffset);
        PageSize(n, |pages|, |used| * cpb, |written|, byteOffset);
      } else {
        PageSize(n, |used| * cpb, |used| * cpb, |written|, byteOffset);
      }
      if byteOffset != 0 {
        complete := FlushBuffer();
      }
      if complete {
        AllFits(n, cpb, nand, used, pages, written);
      }
      NandSize(info, nand, nBlocks, cpb, used);
      CountsClose(info, nBlocks, cpb, nErasedBlocks, nFreeChunks, |used|);
      nFreeChunks := nFreeChunks - blocksInCheckpoint * cpb;
      nErasedBlocks := nErasedBlocks - blocksInCheckpoint;
      if !complete {
        NoRoom(info, nBlocks, cpb, nErasedBlocks, nFreeChunks);
      }
    }

    /** With something in the buffer, what has been written is more than the pages hold. */
    static lemma PageSize(n: nat, k: nat, m: nat, size: nat, off: nat)
      requires size == Start(n, k) + off
      ensures off > 0 && k == m ==> size > Start(n, m)
      ensures off < n && k == m ==> size <= Start(n, m + 1)
      ensures Start(n, m + 1) == Start(n, m) + n
    {
    }

    static lemma AllFits(n: nat, cpb: nat, nand: seq<seq<Cell>>, used: seq<nat>, pages: seq<seq<Byte>>,
            written: seq<Byte>)
      requires n > 0 && cpb > 0 && Stream(n, cpb, nand, used, pages) && Holds(n, pages, written)
      ensures |written| <= Start(n, |used| * cpb)
    {
      StreamLength(n, cpb, nand, used, pages);
      MoreRoom(n, |pages|, |used| * cpb);
    }

    static lemma MoreRoom(n: nat, k: nat, m: nat)
      requires k <= m
      ensures Start(n, k) <= Start(n, m)
    {
    }

    static lemma NandSize(info: seq<Byte>, nand: seq<seq<Cell>>, nBlocks: nat, cpb: nat, used: seq<nat>)
      requires BlocksOk(info, nand, nBlocks, cpb, used)
      ensures |nand| == nBlocks
    {
    }

    static lemma CountsClose(info: seq<Byte>, nBlocks: nat, cpb: nat, nErased: int, nFree: int, k: nat)
      requires CountsOk(info, nBlocks, cpb, nErased, nFree, k)
      ensures CountsOk(info, nBlocks, cpb, nErased - k, nFree - k * cpb, 0)
    {
    }

    static lemma LastPageHeld(n: nat, pages: seq<seq<Byte>>, buffer: seq<Byte>, written: seq<Byte>, off: nat)
      requires n > 0 && Pages(n, pages, buffer, written) && off == |written| - Start(n, |pages|)
      ensures if off == 0 then Holds(n, pages, written) else Holds(n, pages + [buffer], written)
    {
      LastPage(n, pages, buffer, written);
      assert Start(n, |pages| + 1) == Start(n, |pages|) + n;
      if off == 0 {
        forall i | 0 <= i < |written|
          ensures written[i] == ByteOf(n, pages, [], i)
        {
          assert written[i] == ByteOf(n, pages, buffer, i);
          IndexBefore(n, |pages|, i);
        }
      }
    }

    // ----- reading -----

    /** A stream is being read that was recorded as written, pages and used say. */
    ghost predicate Reading()
      reads `nand, `pages, `used, `written, `openForWrite, `info, `blocksInCheckpoint, `blockList, `pageSequence,
          `currentBlock, `currentChunk, `nextBlock, `read, `byteOffset, `buffer, `sum, `xor
    {
      && Recorded() && !openForWrite && |info| == INFO_SIZE * nBlocks && blocksInCheckpoint <= |used|
          && blockList == used[..blocksInCheckpoint]
      && pageSequence <= |pages| && Cursor(cpb, used[..blocksInCheckpoint], pageSequence, currentBlock, currentChunk,
          nextBlock)
      && Position(n, pages, read, pageSequence, byteOffset, buffer)
      && sum == SumOf(read) && xor == XorOf(read)
    }

    lemma ReadingParts()
      requires Reading()
      ensures n > 0 && cpb > 0 && Recorded() && !openForWrite && |info| == INFO_SIZE * nBlocks
          && blocksInCheckpoint <= |used| && blockList == used[..blocksInCheckpoint]
      ensures pageSequence <= |pages| && Cursor(cpb, used[..blocksInCheckpoint], pageSequence, currentBlock,
          currentChunk, nextBlock)
      ensures Position(n, pages, read, pageSequence, byteOffset, buffer) && sum == SumOf(read) && xor == XorOf(read)
      ensures Stream(n, cpb, nand, used, pages) && Holds(n, pages, written) && |nand| == nBlocks
    {
    }

    lemma ReadingFrom()
      requires n > 0 && cpb > 0 && Recorded() && !openForWrite && |info| == INFO_SIZE * nBlocks
          && blocksInCheckpoint <= |used| && blockList == used[..blocksInCheckpoint]
      requires pageSequence <= |pages| && Cursor(cpb, used[..blocksInCheckpoint], pageSequence, currentBlock,
          currentChunk, nextBlock)
      requires Position(n, pages, read, pageSequence, byteOffset, buffer) && sum == SumOf(read) && xor == XorOf(read)
      ensures Reading()
    {
    }

    /** So many pages have been read; the buffer holds the last of them, read up to off. */
    static ghost predicate Position(n: nat, pages: seq<seq<Byte>>, read: seq<Byte>, pageSequence: nat, off: nat,
            buffer: seq<Byte>)
      requires n > 0
    {
      && pageSequence <= |pages| && |buffer| == n && off <= n && |read| == pageSequence * n - n + off
      && (if pageSequence == 0 then off == n else buffer == pages[pageSequence - 1])
      && forall i | 0 <= i < |read| :: read[i] == ByteOf(n, pages, [], i)
    }

    /** Open a recorded stream for reading. */
    method OpenForReading()
      requires Recorded() && |info| == INFO_SIZE * nBlocks && nBlocks > 0
      modifies `openForWrite, `pageSequence, `sum, `xor, `currentBlock, `currentChunk, `nextBlock, `written, `pages,
          `read, `buffer, `byteOffset, `blocksInCheckpoint, `maxBlocks, `blockList
      ensures Reading() && read == [] && maxBlocks == (nBlocks - 1) / 16 + 2 && written == old(written)
          && pages == old(pages)
    {
      hide Stream, Holds, Cursor, Position, Reading, SumOf, XorOf;
      openForWrite := false;
      StartStream();
      StartReading();
      NoPagesRead(cpb, n, pages, buffer);
      assert used[..0] == [];
      ReadingFrom();
    }

    /** The first byte asked for will bring in the first page. */
    method StartReading()
      requires nBlocks > 0
      modifies `buffer, `byteOffset, `blocksInCheckpoint, `maxBlocks, `blockList
      ensures buffer == Zeros(n) && byteOffset == n && blocksInCheckpoint == 0 && maxBlocks == (nBlocks - 1) / 16 + 2
          && blockList == []
    {
      buffer := Zeros(n);
      byteOffset := n;
      blocksInCheckpoint := 0;
      maxBlocks := (nBlocks - 1) / 16 + 2;
      blockList := [];
    }

    static lemma NoPagesRead(cpb: nat, n: nat, pages: seq<seq<Byte>>, buffer: seq<Byte>)
      requires cpb > 0 && n > 0 && |buffer| == n
      ensures Cursor(cpb, [], 0, -1, -1, 0) && Position(n, pages, [], 0, n, buffer) && SumOf([]) == 0 && XorOf([]) == 0
    {
      assert 0 * cpb == 0 && 0 * n == 0;
    }

    /** Find the next block of the checkpoint from where the last one pointed. */
    method FindNextCheckpointBlock()
      requires n > 0 && cpb > 0 && Stream(n, cpb, nand, used, pages) && nextBlock >= 0 && blocksInCheckpoint <= |used|
      requires nextBlock == if blocksInCheckpoint == 0 then 0 else used[blocksInCheckpoint - 1] + 1
      requires blockList == used[..blocksInCheckpoint] && |nand| == nBlocks && |pages| > blocksInCheckpoint * cpb
      modifies `currentBlock, `nextBlock, `blockList, `blocksInCheckpoint
      ensures old(blocksInCheckpoint) < |used|
      ensures old(blocksInCheckpoint) < maxBlocks ==>
                && blocksInCheckpoint == old(blocksInCheckpoint) + 1 && currentBlock == used[blocksInCheckpoint - 1]
                && nextBlock == currentBlock + 1 && blockList == used[..blocksInCheckpoint]
      ensures old(blocksInCheckpoint) >= maxBlocks ==> currentBlock < 0
    {
      hide Stream;
      ghost var j := blocksInCheckpoint;
      MoreBlocks(n, cpb, nand, used, pages, j);
      if blocksInCheckpoint < maxBlocks {
        var i: nat := nextBlock;
        CellSizes(n, cpb, nand, used, pages);
        UsedAhead(n, cpb, nand, used, pages, j);
        while i < nBlocks
          invariant old(nextBlock) <= i <= used[j] < nBlocks
          invariant blocksInCheckpoint == j && blockList == used[..j] && nextBlock == old(nextBlock)
              && currentBlock == old(currentBlock)
          decreases nBlocks - i
        {
          NextUsed(n, cpb, nand, used, pages, j, i);
          if nand[i][0].Page? {
            FirstHint(n, cpb, nand, used, pages, j);
            nextBlock := nand[i][0].hint;
            currentBlock := i;
            blockList := blockList + [i];
            blocksInCheckpoint := blocksInCheckpoint + 1;
            assert used[..j + 1] == used[..j] + [used[j]];
            return;
          }
          i := i + 1;
        }
      }
      nextBlock := -1;
      currentBlock := -1;
    }

    static lemma MoreBlocks(n: nat, cpb: nat, nand: seq<seq<Cell>>, used: seq<nat>, pages: seq<seq<Byte>>, j: nat)
      requires cpb > 0 && Stream(n, cpb, nand, used, pages) && |pages| > j * cpb && j <= |used|
      ensures j < |used| && used[j] < |nand|
    {
    }

    static lemma CellSizes(n: nat, cpb: nat, nand: seq<seq<Cell>>, used: seq<nat>, pages: seq<seq<Byte>>)
      requires cpb > 0 && Stream(n, cpb, nand, used, pages)
      ensures forall b | 0 <= b < |nand| :: |nand[b]| == cpb
    {
    }

    /** The first page of each block points past it. */
    static lemma FirstHint(n: nat, cpb: nat, nand: seq<seq<Cell>>, used: seq<nat>, pages: seq<seq<Byte>>, j: nat)
      requires cpb > 0 && Stream(n, cpb, nand, used, pages) && j < |used|
      ensures used[j] < |nand| && |nand[used[j]]| == cpb && nand[used[j]][0].Page?
          && nand[used[j]][0].hint == used[j] + 1
    {
      PlaceOf(cpb, j, 0);
      MulGrows(|used| - 1 - j, cpb);
      assert (|used| - 1) * cpb == j * cpb + (|used| - 1 - j) * cpb;
      assert PageAt(cpb, nand, used, pages, j * cpb);
    }

    /** Page k is where the cursor is. */
    static lemma PageHere(n: nat, cpb: nat, nand: seq<seq<Cell>>, used: seq<nat>, pages: seq<seq<Byte>>, j: nat,
            chunk: nat)
      requires cpb > 0 && Stream(n, cpb, nand, used, pages) && j < |used| && chunk < cpb && j * cpb + chunk < |pages|
      ensures used[j] < |nand| && |nand[used[j]]| == cpb
          && nand[used[j]][chunk] == Page(pages[j * cpb + chunk], used[j] + 1, j * cpb + chunk + 1)
      ensures |pages[j * cpb + chunk]| == n
    {
      PlaceOf(cpb, j, chunk);
      assert PageAt(cpb, nand, used, pages, j * cpb + chunk);
    }

    static lemma CursorAt(cpb: nat, used: seq<nat>, nPages: nat, block: int, chunk: int, next: int)
      requires Cursor(cpb, used, nPages, block, chunk, next) && block >= 0
      ensures |used| > 0 && block == used[|used| - 1] && 0 < chunk < cpb && nPages == (|used| - 1) * cpb + chunk
    {
    }

    /** Find where the next page is. */
    method FindPage()
      requires Reading() && pageSequence < |pages| && |used| <= maxBlocks
      modifies `currentBlock, `currentChunk, `nextBlock, `blockList, `blocksInCheckpoint
      ensures 0 < blocksInCheckpoint <= |used| && currentBlock == used[blocksInCheckpoint - 1]
          && blockList == used[..blocksInCheckpoint]
      ensures 0 <= currentChunk < cpb && pageSequence == (blocksInCheckpoint - 1) * cpb + currentChunk
      ensures Cursor(cpb, used[..blocksInCheckpoint], pageSequence + 1, if currentChunk + 1 < cpb then currentBlock
          else -1, if currentChunk + 1 < cpb then currentChunk + 1 else 0, nextBlock)
    {
      hide Stream, Holds, Cursor, Position, SumOf, XorOf;
      ghost var j := blocksInCheckpoint;
      CursorBetween(cpb, used[..j], pageSequence, currentBlock, currentChunk, nextBlock);
      if currentBlock < 0 {
        CursorFirst(cpb, used[..j], if j < |used| then used[j] else 0);
        FindNextCheckpointBlock();
        currentChunk := 0;
        assert used[..j] + [used[j]] == used[..j + 1];
      } else {
        CursorAt(cpb, used[..j], pageSequence, currentBlock, currentChunk, nextBlock);
        CursorMore(cpb, used[..j], pageSequence, currentBlock, currentChunk, nextBlock);
      }
    }

    /** Get the next page into the buffer. */
    method ReadPage() returns (ok: bool)
      requires Reading() && byteOffset == n && pageSequence < |pages| && |used| <= maxBlocks
      modifies `currentBlock, `currentChunk, `nextBlock, `blockList, `blocksInCheckpoint, `buffer, `byteOffset,
          `pageSequence
      ensures ok && Reading() && byteOffset == 0
    {
      hide Stream, Holds, Cursor, SumOf, XorOf, ByteOf, Position, Reading, Recorded;
      ReadingParts();
      PositionAtEnd(n, pages, read, pageSequence, byteOffset, buffer);
      FindPage();
      PageHere(n, cpb, nand, used, pages, blocksInCheckpoint - 1, currentChunk);
      PageTurned(n, pages, read, pageSequence, nand[currentBlock][currentChunk].data);
      if currentChunk + 1 >= cpb {
        CursorIdle(cpb, used[..blocksInCheckpoint], pageSequence + 1, 0, currentChunk + 1, nextBlock);
      }
      ok := LoadPage();
      ReadingFrom();
    }

    static lemma PositionAtEnd(n: nat, pages: seq<seq<Byte>>, read: seq<Byte>, k: nat, off: nat, buffer: seq<Byte>)
      requires n > 0 && Position(n, pages, read, k, off, buffer) && off == n
      ensures |read| == k * n && forall i | 0 <= i < |read| :: read[i] == ByteOf(n, pages, [], i)
    {
    }

    /** Read the chunk at the cursor, check that it is the page that comes next, and move on. */
    method LoadPage() returns (ok: bool)
      requires 0 <= currentBlock < |nand| && 0 <= currentChunk < |nand[currentBlock]|
          && nand[currentBlock][currentChunk].Page?
      modifies `buffer, `byteOffset, `pageSequence, `currentChunk, `currentBlock
      ensures ok <==> nand[old(currentBlock)][old(currentChunk)].id == old(pageSequence) + 1
      ensures buffer == nand[old(currentBlock)][old(currentChunk)].data && byteOffset == 0
          && pageSequence == old(pageSequence) + 1
      ensures currentChunk == old(currentChunk) + 1
          && currentBlock == (if currentChunk < cpb then old(currentBlock) else -1)
    {
      var cell := nand[currentBlock][currentChunk];
      ok := cell.id == pageSequence + 1;
      buffer := cell.data;
      byteOffset := 0;
      pageSequence := pageSequence + 1;
      currentChunk := currentChunk + 1;
      if currentChunk >= cpb {
        currentBlock := -1;
      }
    }

    /** Between blocks the chunk number does not matter. */
    static lemma CursorIdle(cpb: nat, used: seq<nat>, nPages: nat, chunk: int, chunk': int, next: int)
      requires Cursor(cpb, used, nPages, -1, chunk, next)
      ensures Cursor(cpb, used, nPages, -1, chunk', next)
    {
    }

    static lemma PageTurned(n: nat, pages: seq<seq<Byte>>, read: seq<Byte>, k: nat, buffer: seq<Byte>)
      requires n > 0 && k < |pages| && buffer == pages[k] && |buffer| == n && |read| == k * n
      requires forall i | 0 <= i < |read| :: read[i] == ByteOf(n, pages, [], i)
      ensures Position(n, pages, read, k + 1, 0, buffer)
    {
      assert (k + 1) * n == k * n + n;
    }

    /** Take one byte from the stream. */
    method ReadByte() returns (ok: bool, b: Byte)
      requires Reading() && |read| < |written| && |used| <= maxBlocks
      modifies `currentBlock, `currentChunk, `nextBlock, `blockList, `blocksInCheckpoint, `buffer, `byteOffset,
          `pageSequence, `sum, `xor, `read
      ensures ok && b == written[|old(read)|] && read == old(read) + [b] && Reading()
    {
      hide Stream, Cursor, ByteOf, SumOf, XorOf, Position, Reading, Recorded, Holds;
      ok := true;
      ReadingParts();
      MoreToRead(n, pages, read, written, pageSequence, byteOffset, buffer);
      if byteOffset >= n {
        ok := ReadPage();
        ReadingParts();
      }
      ByteRead(n, pages, read, pageSequence, byteOffset, buffer);
      b := 0;
      if ok {
        b := buffer[byteOffset];
        SumMore(read, b);
        Consume(b);
        ReadingFrom();
      }
    }

    method Consume(b: Byte)
      modifies `sum, `xor, `byteOffset, `read
      ensures sum == (old(sum) + FromByte(b)) % 0x1_0000_0000 && xor == old(xor) ^ b
          && byteOffset == old(byteOffset) + 1 && read == old(read) + [b]
    {
      sum := (sum + FromByte(b)) % 0x1_0000_0000;
      xor := xor ^ b;
      byteOffset := byteOffset + 1;
      read := read + [b];
    }

    static lemma MoreToRead(n: nat, pages: seq<seq<Byte>>, read: seq<Byte>, written: seq<Byte>, pageSequence: nat,
            off: nat, buffer: seq<Byte>)
      requires n > 0 && Position(n, pages, read, pageSequence, off, buffer) && Holds(n, pages, written)
          && |read| < |written|
      ensures off >= n ==> off == n && pageSequence < |pages|
      ensures written[|read|] == ByteOf(n, pages, [], |read|)
    {
      if off == n {
        MulGrows(pageSequence - |pages|, n);
        assert (pageSequence - |pages|) * n == pageSequence * n - Start(n, |pages|);
      }
    }

    static lemma ByteRead(n: nat, pages: seq<seq<Byte>>, read: seq<Byte>, pageSequence: nat, off: nat,
            buffer: seq<Byte>)
      requires n > 0 && Position(n, pages, read, pageSequence, off, buffer) && off < n
      ensures |buffer| == n && buffer[off] == ByteOf(n, pages, [], |read|)
      ensures Position(n, pages, read + [buffer[off]], pageSequence, off + 1, buffer)
    {
      PlaceOf(n, pageSequence - 1, off);
      assert |read| == (pageSequence - 1) * n + off;
    }

    /** Read a record of k bytes. */
    method CheckpointRead(k: nat) returns (ok: bool, data: seq<Byte>)
      requires Reading() && |read| + k <= |written| && |used| <= maxBlocks
      modifies `currentBlock, `currentChunk, `nextBlock, `blockList, `blocksInCheckpoint, `buffer, `byteOffset,
          `pageSequence, `sum, `xor, `read
      ensures ok && Reading() && read == old(read) + data && data == written[|old(read)|..|old(read)| + k]
    {
      hide Reading;
      ok, data := true, [];
      var i := 0;
      while i < k && ok
        invariant 0 <= i <= k && ok && Reading() && read == old(read) + data
            && data == written[|old(read)|..|old(read)| + i]
      {
        var b;
        ok, b := ReadByte();
        if ok {
          data := data + [b];
        }
        i := i + 1;
      }
    }

    /** Every block of the checkpoint has been found when the whole stream has been read. */
    lemma AllBlocksRead()
      requires Reading() && |read| == |written|
      ensures blocksInCheckpoint == |used| && blockList == used
    {
      hide Holds, SumOf, XorOf, ByteOf;
      AllPagesRead(n, pages, read, written, pageSequence, byteOffset, buffer);
      StreamLength(n, cpb, nand, used, pages);
      hide Stream;
      MulGrows(|used| - 1 - blocksInCheckpoint, cpb);
      assert (|used| - 1 - blocksInCheckpoint) * cpb == (|used| - 1) * cpb - blocksInCheckpoint * cpb;
      assert (blocksInCheckpoint - 1) * cpb == blocksInCheckpoint * cpb - cpb;
      assert used[..|used|] == used;
    }

    static lemma StreamLength(n: nat, cpb: nat, nand: seq<seq<Cell>>, used: seq<nat>, pages: seq<seq<Byte>>)
      requires cpb > 0 && Stream(n, cpb, nand, used, pages)
      ensures (|used| - 1) * cpb < |pages| <= |used| * cpb
    {
    }

    static lemma AllPagesRead(n: nat, pages: seq<seq<Byte>>, read: seq<Byte>, written: seq<Byte>, p: nat, off: nat,
            buffer: seq<Byte>)
      requires n > 0 && Position(n, pages, read, p, off, buffer) && Holds(n, pages, written) && |read| == |written|
      ensures p == |pages|
    {
      MulGrows(|pages| - 1 - p, n);
      assert (|pages| - 1 - p) * n == Start(n, |pages|) - n - p * n;
    }

    /** The state byte at q once the blocks of list have been marked. */
    static function Marked(x: Byte, q: int, list: seq<nat>): Byte {
      if IsStateOfTaken(q, list) && x >> 4 == EMPTY then WithState(x, CHECKPOINT) else x
    }

    static ghost predicate AllMarked(info: seq<Byte>, info': seq<Byte>, list: seq<nat>) {
      |info'| == |info| && forall q | 0 <= q < |info| :: info'[q] == Marked(info[q], q, list)
    }

    static lemma MarkMore(info0: seq<Byte>, info: seq<Byte>, list: seq<nat>, b: nat)
      requires AllMarked(info0, info, list) && INFO_SIZE * b + 2 < |info|
      ensures AllMarked(info0, if StateOf(info, b) == EMPTY then SetState(info, b, CHECKPOINT) else info, list + [b])
    {
      hide WithState;
      var info' := if StateOf(info, b) == EMPTY then SetState(info, b, CHECKPOINT) else info;
      PlaceOf(INFO_SIZE, b, 2);
      forall q | 0 <= q < |info0|
        ensures info'[q] == Marked(info0[q], q, list + [b])
      {
        assert info[q] == Marked(info0[q], q, list);
        CheckpointState(info0[q]);
        StateIndex(q, b, list);
      }
    }

    static lemma StateIndex(q: int, b: nat, list: seq<nat>)
      requires q >= 0
      ensures IsStateOfTaken(q, list + [b]) <==> IsStateOfTaken(q, list) || q == INFO_SIZE * b + 2
    {
      assert q / INFO_SIZE in list + [b] <==> q / INFO_SIZE in list || q / INFO_SIZE == b;
    }

    /** Close the stream that was read: the blocks it was found in are marked, as far as the copy that
        was read still has them erased, and are taken out of the counts. */
    method CloseForReading()
      requires |info| == INFO_SIZE * nBlocks && |blockList| == blocksInCheckpoint && forall i | 0 <= i < |blockList| ::
          blockList[i] < nBlocks
      modifies `info, `nErasedBlocks, `nFreeChunks
      ensures AllMarked(old(info), info, blockList)
      ensures nErasedBlocks == old(nErasedBlocks) - |blockList| && nFreeChunks == old(nFreeChunks) - |blockList| * cpb
    {
      hide WithState, AllMarked, SetState, StateOf;
      var i := 0;
      NoneMarked(info);
      while i < blocksInCheckpoint
        invariant 0 <= i <= blocksInCheckpoint && AllMarked(old(info), info, blockList[..i])
            && |info| == INFO_SIZE * nBlocks
        invariant nErasedBlocks == old(nErasedBlocks) && nFreeChunks == old(nFreeChunks)
      {
        var blk := blockList[i];
        MarkMore(old(info), info, blockList[..i], blk);
        assert blockList[..i] + [blk] == blockList[..i + 1];
        if StateOf(info, blk) == EMPTY {
          SetStateSize(info, blk, CHECKPOINT);
          info := SetState(info, blk, CHECKPOINT);
        }
        i := i + 1;
      }
      assert blockList[..i] == blockList;
      nFreeChunks := nFreeChunks - blocksInCheckpoint * cpb;
      nErasedBlocks := nErasedBlocks - blocksInCheckpoint;
    }

    static lemma SetStateSize(info: seq<Byte>, b: nat, s: Byte)
      requires INFO_SIZE * b + 2 < |info|
      ensures |SetState(info, b, s)| == |info|
    {
    }

    static lemma NoneMarked(info: seq<Byte>)
      ensures AllMarked(info, info, [])
    {
    }

    /** Marking the blocks in the copy gives back the block information as it was when the stream had been written. */
    static lemma MarkedIsSaved(snap: seq<Byte>, info: seq<Byte>, info': seq<Byte>, used: seq<nat>)
      requires Snapshot(snap, info, used) && |snap| == |info| && AllMarked(snap, info', used)
      requires forall b | b in used :: INFO_SIZE * b + 2 < |info| && StateOf(info, b) == CHECKPOINT
      ensures info' == info
    {
      hide WithState;
      forall q | 0 <= q < |info|
        ensures info'[q] == info[q]
      {
        assert SnapAt(snap, info, used, q) && info'[q] == Marked(snap[q], q, used);
        if IsStateOfTaken(q, used) {
          var b := q / INFO_SIZE;
          RemainderIs(q, INFO_SIZE);
          assert q == INFO_SIZE * b + 2 && StateOf(info, b) == CHECKPOINT;
        }
      }
    }

    // ----- a whole checkpoint -----

    /** NAND holds a checkpoint of the device as saved says, with these counters and the rest. */
    ghost predicate Saved(saved: seq<Byte>, nErased: int, nFree: int, alloc: seq<Byte>, rest: seq<Byte>,
            bits: seq<Byte>, objects: seq<Byte>, snap: seq<Byte>)
      reads `nand, `pages, `used, `written
    {
      && Recorded() && |saved| == |snap| == INFO_SIZE * nBlocks && Snapshot(snap, saved, used)
      && (forall b | b in used :: b < nBlocks && StateOf(saved, b) == CHECKPOINT)
      && |alloc| == 8 && |rest| == 16 && 0 <= nErased + |used| < 0x1_0000_0000
          && 0 <= nFree + |used| * cpb < 0x1_0000_0000
      && written == WholeStream(Body(DeviceRecord(nErased + |used|, alloc, nFree + |used| * cpb, rest), snap, bits,
          objects))
    }

    /** Write the checkpoint's records up to the block information. */
    method WriteDevice(alloc: seq<Byte>, rest: seq<Byte>) returns (ok: bool, ghost snap: seq<Byte>)
      requires Writing() && written == [] && |alloc| == 8 && |rest| == 16 && 0 <= nErasedBlocks < 0x1_0000_0000
          && 0 <= nFreeChunks < 0x1_0000_0000
      modifies this
      ensures Books() && nErasedBlocks == old(nErasedBlocks) && nFreeChunks == old(nFreeChunks)
      ensures atOpening == old(atOpening)
      ensures Taken(old(info), old(used), info, used) && (Writing() || Stuck())
      ensures Writing() ==> ok && |snap| == |info| && Snapshot(snap, info, used)
      ensures Writing() ==> written == Validity(true) + DeviceRecord(nErasedBlocks, alloc, nFreeChunks, rest) + snap
      ensures if ok then |written| == 16 + DEVICE_SIZE + |old(info)|
              else Stuck() && |written| < 16 + DEVICE_SIZE + |old(info)|
    {
      hide Stuck, Writing, Books, Snapshot, Taken, DeviceRecord, Validity;
      snap := [];
      ok := CheckpointWrite(Validity(true));
      if ok {
        ghost var f, u := info, used;
        ok := CheckpointWrite(DeviceRecord(nErasedBlocks, alloc, nFreeChunks, rest));
        TakenMore(old(info), old(used), f, u, info, used);
      }
      if ok {
        ghost var f, u := info, used;
        TakenSize(old(info), old(used), info, used);
        ok, snap := WriteBlockInfo();
        TakenMore(old(info), old(used), f, u, info, used);
      }
    }

    /** Write the rest of the records. */
    method WriteRest(bits: seq<Byte>, objects: seq<Byte>, ghost snap: seq<Byte>) returns (ok: bool)
      requires Writing() || Stuck()
      requires Writing() ==> |snap| == |info| && Snapshot(snap, info, used)
      modifies this
      ensures Books() && nErasedBlocks == old(nErasedBlocks) && nFreeChunks == old(nFreeChunks)
      ensures atOpening == old(atOpening)
      ensures Taken(old(info), old(used), info, used) && (Writing() || Stuck())
      ensures Writing() ==> ok && old(Writing()) && |snap| == |info| && Snapshot(snap, info, used)
      ensures Writing() ==> written == WholeStream(old(written) + bits + objects + Validity(false))
      ensures if ok then |written| == |old(written)| + |bits| + |objects| + 16 + 4 && (Stuck() ==> byteOffset == n)
              else Stuck() && |written| < |old(written)| + |bits| + |objects| + 16 + 4
    {
      hide Stuck, Writing, Books, Snapshot, Taken, Validity, SumOf, XorOf, CompositeSum, Word;
      BothBooks();
      ghost var f, u := info, used;
      ok := CheckpointWrite(bits);
      StillSnapshot(snap, f, u, info, used);
      if ok {
        f, u := info, used;
        ok := CheckpointWrite(objects);
        StillSnapshot(snap, f, u, info, used);
        TakenMore(old(info), old(used), f, u, info, used);
      }
      if ok {
        f, u := info, used;
        ok := CheckpointWrite(Validity(false));
        StillSnapshot(snap, f, u, info, used);
        TakenMore(old(info), old(used), f, u, info, used);
      }
      if ok {
        f, u := info, used;
        SumsNow();
        ok := CheckpointWrite(Word(CompositeSum(sum, xor)));
        StillSnapshot(snap, f, u, info, used);
        TakenMore(old(info), old(used), f, u, info, used);
      }
    }

    lemma SumsNow()
      ensures Writing() ==> sum == SumOf(written) && xor == XorOf(written)
    {
    }

    static lemma StillSnapshot(snap: seq<Byte>, info: seq<Byte>, used: seq<nat>, info': seq<Byte>, used': seq<nat>)
      requires Taken(info, used, info', used')
      ensures |info'| == |info| && (Snapshot(snap, info, used) ==> Snapshot(snap, info', used'))
    {
      if Snapshot(snap, info, used) {
        SnapshotTaken(snap, info, used, info', used');
      }
    }

    /** Write a checkpoint. When it is complete, NAND holds one of the device as it is now. The counters are those of the
        blocks as they are now in any case. It is complete exactly if there is an erased block beyond the reserve at
        first and the stream fits in all the blocks that are erased once the last checkpoint is: the reserve is not
        kept. It is taken for complete also if just the last page is missing. */
    method WriteCheckpointData(alloc: seq<Byte>, rest: seq<Byte>, bits: seq<Byte>, objects: seq<Byte>,
            erases: iset<nat>)
      returns (ok: bool, complete: bool, ghost snap: seq<Byte>)
      requires Settled() && |alloc| == 8 && |rest| == 16
      requires 0 <= nErasedBlocks && 0 <= nFreeChunks && nErasedBlocks + nBlocks < 0x1_0000_0000
          && nFreeChunks + nBlocks * cpb < 0x1_0000_0000
      modifies this
      ensures Settled()
      ensures InfoFor(old(info), nBlocks) && OthersKept(old(info), old(nand), nand, nBlocks)
      ensures complete <==> (old(nErasedBlocks) > nReservedBlocks
          && StreamSize(nBlocks, |bits|, |objects|) <= Start(n, Erasable(old(info), erases, nBlocks) * cpb))
      ensures ok <==> (old(nErasedBlocks) > nReservedBlocks
          && StreamSize(nBlocks, |bits|, |objects|) <= Start(n, Erasable(old(info), erases, nBlocks) * cpb + 1))
      ensures old(nErasedBlocks) > nReservedBlocks ==> nErasedBlocks + |used| == Erasable(old(info), erases, nBlocks)
      ensures complete ==> Saved(info, nErasedBlocks, nFreeChunks, alloc, rest, bits, objects, snap)
      ensures complete ==> blocksInCheckpoint == |used|
      ensures SameButStates(old(info), info)
    {
      hide OthersKept, KeptCells, NoneErasedBelow, Erasable, Start, Stuck, SameButStates, Settled, Writing, Books,
          Snapshot, Stream, Holds, DeviceRecord, Word, SumOf, XorOf, Validity, Recorded, Taken, BlocksOk;
      snap := [];
      ok := OpenForWriting(erases);
      if !ok {
        complete := false;
        StatesSame(info);
        SettledParts();
        OthersSame(info, nand, nBlocks, cpb, used);
        return;
      }
      ghost var f, u, e := info, used, nErasedBlocks;
      ok, snap := WriteRecords(alloc, rest, bits, objects);
      TakenStates(old(info), f, u, info, used);
      StuckSize();
      f, u := info, used;
      complete := CloseForWriting();
      StillSnapshot(snap, f, u, info, used);
      TakenStates(old(info), f, u, info, used);
      SettledParts();
      OthersUntouched(old(info), old(nand), atOpening, info, nand, nBlocks, cpb, used);
      CountsErased(info, nBlocks, cpb, nErasedBlocks, nFreeChunks);
      RoomIsMore(n, |used|, e, cpb);
      PageSize(n, e * cpb, e * cpb, Start(n, e * cpb), 0);
      if complete {
        UsedMarked();
      }
    }

    lemma StuckSize()
      ensures Stuck() ==> |written| >= Start(n, |used| * cpb + 1) && n > 0
      ensures Stuck() && byteOffset == n ==> |written| == Start(n, |used| * cpb + 1)
    {
    }

    /** Write all the records between opening and closing. */
    method WriteRecords(alloc: seq<Byte>, rest: seq<Byte>, bits: seq<Byte>, objects: seq<Byte>)
      returns (ok: bool, ghost snap: seq<Byte>)
      requires Writing() && written == [] && |alloc| == 8 && |rest| == 16 && 0 <= nErasedBlocks < 0x1_0000_0000
          && 0 <= nFreeChunks < 0x1_0000_0000
      modifies this
      ensures Books() && nErasedBlocks == old(nErasedBlocks) && nFreeChunks == old(nFreeChunks)
      ensures atOpening == old(atOpening) && Taken(old(info), old(used), info, used)
      ensures Writing() || Stuck()
      ensures Writing() ==> ok && |snap| == |info| && Snapshot(snap, info, used)
      ensures Writing() ==> written == WholeStream(Body(DeviceRecord(nErasedBlocks, alloc, nFreeChunks, rest), snap,
          bits,
          objects))
      ensures if ok then |written| == StreamSize(nBlocks, |bits|, |objects|) && (Stuck() ==> byteOffset == n)
              else Stuck() && |written| < StreamSize(nBlocks, |bits|, |objects|)
    {
      hide Stuck, Writing, Books, Snapshot, Taken, DeviceRecord, Validity, Word, SumOf, XorOf;
      WritingInfo();
      ok, snap := WriteDevice(alloc, rest);
      if ok {
        ghost var f, u := info, used;
        ok := WriteRest(bits, objects, snap);
        TakenMore(old(info), old(used), f, u, info, used);
      }
    }

    lemma WritingInfo()
      requires Writing()
      ensures InfoFor(info, nBlocks)
    {
    }

    static lemma OthersSame(info: seq<Byte>, nand: seq<seq<Cell>>, nBlocks: nat, cpb: nat, used: seq<nat>)
      requires BlocksOk(info, nand, nBlocks, cpb, used)
      ensures OthersKept(info, nand, nand, nBlocks)
    {
    }

    /** Only blocks that were erased or held the last checkpoint have been written to. */
    static lemma OthersUntouched(info0: seq<Byte>, nand0: seq<seq<Cell>>, atOpening: seq<seq<Cell>>, info: seq<Byte>,
            nand: seq<seq<Cell>>, nBlocks: nat, cpb: nat, used: seq<nat>)
      requires OthersKept(info0, nand0, atOpening, nBlocks) && KeptCells(atOpening, nand, used)
          && SameButStates(info0, info)
      requires BlocksOk(info, nand, nBlocks, cpb, used)
      ensures OthersKept(info0, nand0, nand, nBlocks)
    {
      forall b: nat | b < nBlocks && StateOf(info0, b) !in {EMPTY, CHECKPOINT}
        ensures nand[b] == nand0[b]
      {
        assert SameButState(info0[INFO_SIZE * b + 2], info[INFO_SIZE * b + 2], INFO_SIZE * b + 2);
        InUsed(info, nand, nBlocks, cpb, used, b);
      }
    }

    static lemma NoRoom(info: seq<Byte>, nBlocks: nat, cpb: nat, nErased: int, nFree: int)
      requires CountsOk(info, nBlocks, cpb, nErased, nFree, 0) && NoneErasedBelow(info, nBlocks, nBlocks)
      ensures nErased == 0
    {
      NoneErased(info, nBlocks, nBlocks);
    }

    static lemma RoomIsMore(n: nat, k: nat, m: nat, cpb: nat)
      requires k <= m
      ensures Start(n, k * cpb) <= Start(n, m * cpb)
    {
      MulGrows(m - k, cpb);
      assert (m - k) * cpb == m * cpb - k * cpb;
      MoreRoom(n, k * cpb, m * cpb);
    }

    /** Every block used says so. */
    lemma UsedMarked()
      requires Settled() && Recorded()
      ensures |info| == INFO_SIZE * nBlocks && forall b | b in used :: b < nBlocks && StateOf(info, b) == CHECKPOINT
    {
      forall b | b in used
        ensures b < nBlocks && StateOf(info, b) == CHECKPOINT
      {
        var j :| 0 <= j < |used| && used[j] == b;
        assert BlockOk(info, nand, used, b);
      }
    }

    /** Read the opening marker and the device record, and set the counters. */
    method ReadDevice(ghost nErased: nat, ghost alloc: seq<Byte>, ghost nFree: nat, ghost rest: seq<Byte>,
            ghost tail: seq<Byte>)
      returns (ok: bool, alloc': seq<Byte>, rest': seq<Byte>)
      requires Reading() && read == [] && |used| <= maxBlocks && |alloc| == 8 && |rest| == 16 && nErased < 0x1_0000_0000
          && nFree < 0x1_0000_0000
      requires written == Validity(true) + DeviceRecord(nErased, alloc, nFree, rest) + tail
      modifies this
      ensures ok && alloc' == alloc && rest' == rest && nErasedBlocks == nErased && nFreeChunks == nFree
      ensures Reading() && read == Validity(true) + DeviceRecord(nErased, alloc, nFree, rest)
      ensures info == old(info) && nand == old(nand) && written == old(written) && pages == old(pages)
          && used == old(used) && maxBlocks == old(maxBlocks)
    {
      hide Reading, Validity, DeviceRecord, Word, Unword;
      alloc', rest' := [], [];
      DeviceBack(nErased, alloc, nFree, rest);
      ThreeParts(Validity(true), DeviceRecord(nErased, alloc, nFree, rest), tail);
      var cp;
      ok, cp := CheckpointRead(16);
      ok := ok && cp == Validity(true);
      if ok {
        ok, cp := CheckpointRead(DEVICE_SIZE);
      }
      if ok && Unword(cp[..4]) == DEVICE_SIZE {
        SetCounters(Unword(cp[4..8]), Unword(cp[16..20]));
        alloc', rest' := cp[8..16], cp[20..];
      } else {
        ok := false;
      }
    }

    static lemma ThreeParts(a: seq<Byte>, b: seq<Byte>, c: seq<Byte>)
      ensures (a + b + c)[0..|a|] == a && (a + b + c)[|a|..|a| + |b|] == b && (a + b + c)[|a| + |b|..] == c
    {
    }

    method SetCounters(nErased: nat, nFree: nat)
      modifies `nErasedBlocks, `nFreeChunks
      ensures nErasedBlocks == nErased && nFreeChunks == nFree && (old(Reading()) ==> Reading())
    {
      nErasedBlocks, nFreeChunks := nErased, nFree;
    }

    /** Read one record that is known to come next. */
    method ReadRecord(ghost before: seq<Byte>, ghost record: seq<Byte>, ghost after: seq<Byte>, k: nat)
      returns (ok: bool, data: seq<Byte>)
      requires Reading() && read == before && written == before + record + after && k == |record| && |used| <= maxBlocks
      modifies `currentBlock, `currentChunk, `nextBlock, `blockList, `blocksInCheckpoint, `buffer, `byteOffset,
          `pageSequence, `sum, `xor, `read
      ensures ok && data == record && Reading() && read == before + record
    {
      hide Reading;
      ThreeParts(before, record, after);
      ok, data := CheckpointRead(k);
    }

    /** Compare the sum of what has been read with the one that was written. */
    method ReadCheckpointSum(ghost body: seq<Byte>) returns (ok: bool)
      requires Reading() && read == body && written == WholeStream(body) && |used| <= maxBlocks
      modifies `currentBlock, `currentChunk, `nextBlock, `blockList, `blocksInCheckpoint, `buffer, `byteOffset,
          `pageSequence, `sum, `xor, `read
      ensures ok && Reading() && |read| == |written|
    {
      hide Reading, Word, Unword, SumOf, XorOf, CompositeSum;
      SumsRead();
      var checkpointSum0 := CompositeSum(sum, xor);
      WordBack(checkpointSum0);
      var data;
      assert body + Word(checkpointSum0) + [] == body + Word(checkpointSum0);
      ok, data := ReadRecord(body, Word(checkpointSum0), [], 4);
      ok := ok && Unword(data) == checkpointSum0;
    }

    lemma SumsRead()
      requires Reading()
      ensures sum == SumOf(read) && xor == XorOf(read)
    {
    }

    method SetInfo(data: seq<Byte>)
      requires |data| == INFO_SIZE * nBlocks
      modifies `info
      ensures info == data && (old(Reading()) ==> Reading())
    {
      info := data;
    }

    /** Read the block information and what follows it. */
    method ReadRest(ghost before: seq<Byte>, ghost snap: seq<Byte>, ghost bits: seq<Byte>, ghost objects: seq<Byte>,
            nBits: nat, nObjects: nat)
      returns (ok: bool, bits': seq<Byte>, objects': seq<Byte>)
      requires Reading() && read == before && |used| <= maxBlocks && |snap| == INFO_SIZE * nBlocks && nBits == |bits|
          && nObjects == |objects|
      requires written == WholeStream(before + snap + bits + objects + Validity(false))
      modifies this
      ensures ok && bits' == bits && objects' == objects && info == snap && Reading() && |read| == |written|
      ensures nand == old(nand) && written == old(written) && pages == old(pages) && used == old(used)
          && nErasedBlocks == old(nErasedBlocks) && nFreeChunks == old(nFreeChunks)
    {
      hide Reading, Validity, Word, SumOf, XorOf, CompositeSum;
      ghost var v := Validity(false);
      ghost var body := before + snap + bits + objects + v;
      ghost var tail := Word(CompositeSum(SumOf(body), XorOf(body)));
      var data;
      assert written == before + snap + (bits + objects + v + tail);
      ok, data := ReadRecord(before, snap, bits + objects + v + tail, INFO_SIZE * nBlocks);
      SetInfo(data);
      assert written == before + snap + bits + (objects + v + tail);
      ok, bits' := ReadRecord(before + snap, bits, objects + v + tail, nBits);
      assert written == before + snap + bits + objects + (v + tail);
      ok, objects' := ReadRecord(before + snap + bits, objects, v + tail, nObjects);
      ok, data := ReadRecord(before + snap + bits + objects, v, tail, 16);
      ok := ok && data == Validity(false);
      if ok {
        ok := ReadCheckpointSum(body);
      }
    }

    /** Read the checkpoint back at mount time, when all that is known is on NAND. The block information
        and the counters are again what they were when it had been written, and all the rest is as it was
        given. It can be read if it is not spread over more blocks than the reader allows for. */
    method ReadCheckpointData(nBits: nat, nObjects: nat, ghost saved: seq<Byte>, ghost nErased: int, ghost nFree: int,
                              ghost alloc: seq<Byte>, ghost rest: seq<Byte>, ghost bits: seq<Byte>,
                                  ghost objects: seq<Byte>, ghost snap: seq<Byte>)
      returns (ok: bool, alloc': seq<Byte>, rest': seq<Byte>, bits': seq<Byte>, objects': seq<Byte>)
      requires Saved(saved, nErased, nFree, alloc, rest, bits, objects, snap) && nBits == |bits|
          && nObjects == |objects|
      requires |info| == INFO_SIZE * nBlocks && nBlocks > 0 && |used| <= (nBlocks - 1) / 16 + 2
      modifies this
      ensures ok && info == saved && nErasedBlocks == nErased && nFreeChunks == nFree
      ensures alloc' == alloc && rest' == rest && bits' == bits && objects' == objects
      ensures nand == old(nand) && used == old(used)
    {
      hide Recorded, Reading, Validity, Word, SumOf, XorOf, CompositeSum, DeviceRecord, Snapshot, StateOf;
      alloc', rest', bits', objects' := [], [], [], [];
      ghost var e, f := nErased + |used|, nFree + |used| * cpb;
      ghost var dev := DeviceRecord(e, alloc, f, rest);
      ghost var body := Body(dev, snap, bits, objects);
      ghost var tail := snap + bits + objects + Validity(false) + Word(CompositeSum(SumOf(body), XorOf(body)));
      assert written == Validity(true) + dev + tail;
      OpenForReading();
      ok, alloc', rest' := ReadDevice(e, alloc, f, rest, tail);
      if ok {
        ok, bits', objects' := ReadRest(Validity(true) + dev, snap, bits, objects, nBits, nObjects);
      }
      AllBlocksRead();
      CloseReadStream();
      MarkedIsSaved(snap, saved, info, used);
    }

    method CloseReadStream()
      requires Reading() && |read| == |written|
      modifies `info, `nErasedBlocks, `nFreeChunks
      ensures AllMarked(old(info), info, used) && nErasedBlocks == old(nErasedBlocks) - |used|
          && nFreeChunks == old(nFreeChunks) - |used| * cpb
    {
      AllBlocksRead();
      CloseForReading();
    }

    /** Save, lose everything in RAM, and restore: the records come back, and the information on every block
        but for its state; the counters agree with the blocks, and exactly the blocks that hold the stream say
        that they do. The states change while the checkpoint is written; they come back as they were then. */
    method SaveAndRestore(alloc: seq<Byte>, rest: seq<Byte>, bits: seq<Byte>, objects: seq<Byte>, garbage: seq<Byte>,
            x: int, y: int, erases: iset<nat>)
      returns (ok: bool, alloc': seq<Byte>, rest': seq<Byte>, bits': seq<Byte>, objects': seq<Byte>)
      requires Settled() && |alloc| == 8 && |rest| == 16 && |garbage| == INFO_SIZE * nBlocks && nBlocks > 0
      requires 0 <= nErasedBlocks && 0 <= nFreeChunks && nErasedBlocks + nBlocks < 0x1_0000_0000
          && nFreeChunks + nBlocks * cpb < 0x1_0000_0000
      modifies this
      ensures Settled()
      ensures InfoFor(old(info), nBlocks) && OthersKept(old(info), old(nand), nand, nBlocks)
      ensures ok <==> (old(nErasedBlocks) > nReservedBlocks
          && StreamSize(nBlocks, |bits|, |objects|) <= Start(n, Erasable(old(info), erases, nBlocks) * cpb)
          && |used| <= (nBlocks - 1) / 16 + 2)
      ensures ok ==> alloc' == alloc && rest' == rest && bits' == bits && objects' == objects
      ensures SameButStates(old(info), info)
      ensures ok ==> forall b: nat | b < nBlocks ::
          b in used <==> InfoFor(info, nBlocks) && StateOf(info, b) == CHECKPOINT
    {
      hide Settled, Saved, StateOf, SameButStates, OthersKept, Start, Erasable;
      alloc', rest', bits', objects' := [], [], [], [];
      ghost var snap;
      var complete;
      ok, complete, snap := WriteCheckpointData(alloc, rest, bits, objects, erases);
      if !complete || blocksInCheckpoint > (nBlocks - 1) / 16 + 2 {
        ok := false;
        return;
      }
      ghost var saved, e, f := info, nErasedBlocks, nFreeChunks;
      SettledParts();
      Forget(garbage, x, y, saved, e, f, alloc, rest, bits, objects, snap);
      ok, alloc', rest', bits', objects' := ReadCheckpointData(|bits|, |objects|, saved, e, f, alloc, rest, bits,
          objects, snap);
      PartsSettled();
      SettledStates();
    }

    lemma SettledParts()
      requires Settled()
      ensures n > 0 && cpb > 0 && BlocksOk(info, nand, nBlocks, cpb, used)
          && CountsOk(info, nBlocks, cpb, nErasedBlocks, nFreeChunks, 0)
    {
    }

    lemma PartsSettled()
      requires n > 0 && cpb > 0 && BlocksOk(info, nand, nBlocks, cpb, used)
          && CountsOk(info, nBlocks, cpb, nErasedBlocks, nFreeChunks, 0)
      ensures Settled()
    {
    }

    lemma SettledStates()
      requires Settled()
      ensures InfoFor(info, nBlocks) && forall b: nat | b < nBlocks :: b in used <==> StateOf(info, b) == CHECKPOINT
    {
      forall b: nat | b < nBlocks
        ensures b in used <==> StateOf(info, b) == CHECKPOINT
      {
        assert BlockOk(info, nand, used, b);
      }
    }

    /** RAM is lost; NAND stays. */
    method Forget(garbage: seq<Byte>, x: int, y: int, ghost saved: seq<Byte>, ghost nErased: int, ghost nFree: int,
                  ghost alloc: seq<Byte>, ghost rest: seq<Byte>, ghost bits: seq<Byte>, ghost objects: seq<Byte>,
                      ghost snap: seq<Byte>)
      requires Saved(saved, nErased, nFree, alloc, rest, bits, objects, snap)
      modifies `info, `nErasedBlocks, `nFreeChunks
      ensures info == garbage && nErasedBlocks == x && nFreeChunks == y
          && Saved(saved, nErased, nFree, alloc, rest, bits, objects, snap)
    {
      hide Saved;
      info, nErasedBlocks, nFreeChunks := garbage, x, y;
    }
  }

  /** A run in which the last page of a checkpoint does not find a block, and the checkpoint passes for complete. */
  method LastPageMissing() returns (ok: bool, complete: bool)
    ensures ok && !complete
  {
    hide SameButStates, OthersKept, Checkpointer.Saved;
    var d := new Checkpointer(40, 1, 2, 0);
    assert d.nErasedBlocks == 2 && d.nFreeChunks == 2 by {
      d.SettledParts();
      assert ErasedBlocks(d.info, 1) == 1 && ErasedBlocks(d.info, 2) == 2;
      assert FreeChunks(d.info, 1, 1) == 1 && FreeChunks(d.info, 1, 2) == 2;
    }
    assert Erasable(d.info, iset{}, 1) == 1 && Erasable(d.info, iset{}, 2) == 2;
    ghost var snap;
    ok, complete, snap := d.WriteCheckpointData(Zeros(8), Zeros(16), [], [], iset{});
  }
}
