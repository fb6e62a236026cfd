/** Encrypted chunks: page and tags share one block of the cipher. */
module Crypto {
  import opened Words

  const AES_BLOCK_SIZE: nat := 16
  const SEQUENCE_OFFSET: nat := 4

  /** The bytes of a number from the low one on, as shifting and masking gives them. */
  ghost function TweakBytes(tweak: int, n: nat): (b: seq<Octet>)
    ensures |b| == n
    decreases n
  {
    if n == 0 then [] else [BitsOf(tweak % 256, 8)] + TweakBytes(tweak / 256, n - 1)
  }

  method InitializeTweakBytes(tweak: int) returns (tweakBytes: array<Octet>)
    ensures fresh(tweakBytes) && tweakBytes[..] == TweakBytes(tweak, AES_BLOCK_SIZE)
  {
    hide TweakBytes, BitsOf, Zero;
    tweakBytes := new Octet[AES_BLOCK_SIZE](_ => Zero(8));
    var t := tweak;
    var j := 0;
    NoBytesYet(tweak);
    while j < AES_BLOCK_SIZE
      invariant 0 <= j <= AES_BLOCK_SIZE
      invariant TweakBytes(tweak, AES_BLOCK_SIZE)[j..] == TweakBytes(t, AES_BLOCK_SIZE - j)
      invariant forall k | 0 <= k < j :: tweakBytes[k] == TweakBytes(tweak, AES_BLOCK_SIZE)[k]
    {
      OneMoreByte(tweak, j, t);
      tweakBytes[j] := BitsOf(t % 256, 8);
      t := t / 256;
      j := j + 1;
    }
  }

  lemma NoBytesYet(tweak: int)
    ensures TweakBytes(tweak, AES_BLOCK_SIZE)[0..] == TweakBytes(tweak, AES_BLOCK_SIZE)
  {
  }

  lemma OneMoreByte(tweak: int, j: nat, t: int)
    requires j < AES_BLOCK_SIZE && TweakBytes(tweak, AES_BLOCK_SIZE)[j..] == TweakBytes(t, AES_BLOCK_SIZE - j)
    ensures TweakBytes(tweak, AES_BLOCK_SIZE)[j] == BitsOf(t % 256, 8)
    ensures TweakBytes(tweak, AES_BLOCK_SIZE)[j + 1..] == TweakBytes(t / 256, AES_BLOCK_SIZE - (j + 1))
  {
    hide BitsOf;
    FirstByte(t, AES_BLOCK_SIZE - j);
    ghost var all := TweakBytes(tweak, AES_BLOCK_SIZE);
    assert all[j] == all[j..][0] && all[j..][1..] == all[j + 1..];
  }

  lemma FirstByte(t: int, n: nat)
    requires n > 0
    ensures TweakBytes(t, n)[0] == BitsOf(t % 256, 8) && TweakBytes(t, n)[1..] == TweakBytes(t / 256, n - 1)
  {
  }

  predicate Int32(x: int) {
    -0x8000_0000 <= x < 0x8000_0000
  }

  lemma SameByte(a: int, b: int)
    requires BitsOf(a % 256, 8) == BitsOf(b % 256, 8)
    ensures a % 256 == b % 256
  {
    assert Pow2(8) == 256;
    ValueOfBits(a % 256, 8);
    ValueOfBits(b % 256, 8);
  }

  lemma TweakByteAt(a: int, b: int, n: nat)
    requires n > 0 && TweakBytes(a, n) == TweakBytes(b, n)
    ensures a % 256 == b % 256 && TweakBytes(a / 256, n - 1) == TweakBytes(b / 256, n - 1)
  {
    hide TweakBytes, BitsOf;
    FirstByte(a, n);
    FirstByte(b, n);
    SameByte(a, b);
  }

  /** Two ints with the same tweak bytes are the same. */
  lemma TweaksDiffer(a: int, b: int)
    requires Int32(a) && Int32(b) && TweakBytes(a, AES_BLOCK_SIZE) == TweakBytes(b, AES_BLOCK_SIZE)
    ensures a == b
  {
    hide TweakBytes;
    TweakByteAt(a, b, 16);
    var a1, b1 := a / 256, b / 256;
    TweakByteAt(a1, b1, 15);
    var a2, b2 := a1 / 256, b1 / 256;
    TweakByteAt(a2, b2, 14);
    var a3, b3 := a2 / 256, b2 / 256;
    TweakByteAt(a3, b3, 13);
    TopByte(a3, b3);
    Lower(a2, b2);
    Lower(a1, b1);
    Lower(a, b);
  }

  lemma TopByte(a: int, b: int)
    requires -128 <= a < 128 && -128 <= b < 128 && a % 256 == b % 256
    ensures a == b
  {
  }

  lemma Lower(a: int, b: int)
    requires a % 256 == b % 256 && a / 256 == b / 256
    ensures a == b
  {
  }

  datatype Use = Page(chunk: nat) | TagsOf(chunk: nat)

  /** What a use of the cipher is tweaked with. */
  function Tweak(u: Use): nat {
    match u
    case Page(chunk) => chunk * 2
    case TagsOf(chunk) => chunk * 2 + 1
  }

  /** No two uses, for any chunks whose tweaks are ints, share tweak bytes. */
  lemma UsesDiffer(u: Use, v: Use)
    requires u != v && Int32(Tweak(u)) && Int32(Tweak(v))
    ensures TweakBytes(Tweak(u), AES_BLOCK_SIZE) != TweakBytes(Tweak(v), AES_BLOCK_SIZE)
  {
    hide TweakBytes;
    if TweakBytes(Tweak(u), AES_BLOCK_SIZE) == TweakBytes(Tweak(v), AES_BLOCK_SIZE) {
      TweaksDiffer(Tweak(u), Tweak(v));
    }
  }

  /** Any length-preserving cipher that takes a tweak and can be undone, on at least one block. */
  class Cipher {
    const encrypt: (seq<Octet>, seq<Octet>) -> seq<Octet>
    const decrypt: (seq<Octet>, seq<Octet>) -> seq<Octet>

    ghost predicate Invertible() {
      forall t, x | |t| == AES_BLOCK_SIZE && |x| >= AES_BLOCK_SIZE ::
        && |encrypt(t, x)| == |x| && |decrypt(t, x)| == |x|
        && decrypt(t, encrypt(t, x)) == x
    }

    function Encrypted(t: seq<Octet>, x: seq<Octet>): (r: seq<Octet>)
      requires Invertible() && |t| == AES_BLOCK_SIZE && |x| >= AES_BLOCK_SIZE
      ensures |r| == |x|
    {
      encrypt(t, x)
    }

    function Decrypted(t: seq<Octet>, x: seq<Octet>): (r: seq<Octet>)
      requires Invertible() && |t| == AES_BLOCK_SIZE && |x| >= AES_BLOCK_SIZE
      ensures |r| == |x|
    {
      decrypt(t, x)
    }

    lemma Undone(t: seq<Octet>, x: seq<Octet>)
      requires Invertible() && |t| == AES_BLOCK_SIZE && |x| >= AES_BLOCK_SIZE
      ensures Decrypted(t, Encrypted(t, x)) == x
    {
    }

    constructor (e: (seq<Octet>, seq<Octet>) -> seq<Octet>, d: (seq<Octet>, seq<Octet>) -> seq<Octet>)
      ensures encrypt == e && decrypt == d
    {
      encrypt := e;
      decrypt := d;
    }
  }

  function Put(s: seq<Octet>, at: nat, bytes: seq<Octet>): (r: seq<Octet>)
    requires at + |bytes| <= |s|
    ensures |r| == |s|
  {
    s[..at] + bytes + s[at + |bytes|..]
  }

  lemma PutParts(s: seq<Octet>, at: nat, bytes: seq<Octet>)
    requires at + |bytes| <= |s|
    ensures Put(s, at, bytes)[..at] == s[..at] && Put(s, at, bytes)[at..at + |bytes|] == bytes
    ensures at + |bytes| == |s| ==> Put(s, at, bytes) == s[..at] + bytes && Put(s, at, bytes)[at..] == bytes
    ensures at == 0 && |bytes| == |s| ==> Put(s, at, bytes) == bytes
  {
  }

  /** Bytes into an array from position at on. */
  method CopyTo(a: array<Octet>, at: nat, bytes: seq<Octet>)
    requires at + |bytes| <= a.Length
    modifies a
    ensures a[..] == Put(old(a[..]), at, bytes)
  {
    ghost var was := a[..];
    var k := 0;
    while k < |bytes|
      invariant 0 <= k <= |bytes|
      invariant a[..at] == was[..at] && a[at..at + k] == bytes[..k] && a[at + k..] == was[at + k..]
    {
      a[at + k] := bytes[k];
      k := k + 1;
    }
    assert a[..] == a[..at] + a[at..at + |bytes|] + a[at + |bytes|..];
  }

  /** Page and tags, in one step of the cipher over the page and one over the tags and as much of the
      enciphered page as fills a block. */
  ghost function Spliced(c: Cipher, page: seq<Octet>, tags: seq<Octet>, pageTweak: int, tagsTweak: int): (seq<Octet>,
          seq<Octet>)
    requires c.Invertible() && |tags| <= AES_BLOCK_SIZE <= |page|
  {
    var missing := AES_BLOCK_SIZE - |tags|;
    var p := c.Encrypted(TweakBytes(pageTweak, AES_BLOCK_SIZE), page);
    var kept := |page| - missing;
    var block := c.Encrypted(TweakBytes(tagsTweak, AES_BLOCK_SIZE), tags + p[kept..]);
    (p[..kept] + block[..missing], block[missing..])
  }

  /** What deciphering has to find: first the block that the tags share with the end of the page, under the
      tags' tweak, gives the tags, and what of the page they covered; then the page is deciphered. */
  ghost predicate Enciphers(c: Cipher, page: seq<Octet>, tags: seq<Octet>, pageTweak: int, tagsTweak: int,
          page': seq<Octet>, tags': seq<Octet>)
    requires c.Invertible() && |tags| <= AES_BLOCK_SIZE <= |page|
  {
    && |page'| == |page| && |tags'| == |tags|
    && var kept := |page| - (AES_BLOCK_SIZE - |tags|);
       var covered := c.Encrypted(TweakBytes(pageTweak, AES_BLOCK_SIZE), page)[kept..];
       && c.Decrypted(TweakBytes(tagsTweak, AES_BLOCK_SIZE), page'[kept..] + tags') == tags + covered
       && c.Decrypted(TweakBytes(pageTweak, AES_BLOCK_SIZE), page'[..kept] + covered) == page
  }

  lemma SplicedEnciphers(c: Cipher, page: seq<Octet>, tags: seq<Octet>, pageTweak: int, tagsTweak: int)
    requires c.Invertible() && |tags| <= AES_BLOCK_SIZE <= |page|
    ensures var (p, t) := Spliced(c, page, tags, pageTweak, tagsTweak);
            Enciphers(c, page, tags, pageTweak, tagsTweak, p, t)
  {
    hide TweakBytes, Cipher.Invertible, Cipher.Encrypted, Cipher.Decrypted;
    var missing := AES_BLOCK_SIZE - |tags|;
    var kept := |page| - missing;
    c.Undone(TweakBytes(pageTweak, AES_BLOCK_SIZE), page);
    var p := c.Encrypted(TweakBytes(pageTweak, AES_BLOCK_SIZE), page);
    var block := c.Encrypted(TweakBytes(tagsTweak, AES_BLOCK_SIZE), tags + p[kept..]);
    c.Undone(TweakBytes(tagsTweak, AES_BLOCK_SIZE), tags + p[kept..]);
    var page', tags' := p[..kept] + block[..missing], block[missing..];
    assert page'[kept..] == block[..missing] && page'[..kept] == p[..kept];
    assert page'[kept..] + tags' == block;
    assert p[..kept] + p[kept..] == p;
  }

  method AESXtsEncrypt(c: Cipher, page: array<Octet>, pageTweak: int, packed: array<Octet>, tagsTweak: int)
    requires c.Invertible() && page != packed && AES_BLOCK_SIZE <= page.Length
    requires SEQUENCE_OFFSET <= packed.Length <= SEQUENCE_OFFSET + AES_BLOCK_SIZE
    modifies page, packed
    ensures (page[..], packed[..][SEQUENCE_OFFSET..]) ==
              Spliced(c, old(page[..]), old(packed[..])[SEQUENCE_OFFSET..], pageTweak, tagsTweak)
    ensures Enciphers(c, old(page[..]), old(packed[..])[SEQUENCE_OFFSET..], pageTweak, tagsTweak, page[..],
                packed[..][SEQUENCE_OFFSET..])
    ensures packed[..][..SEQUENCE_OFFSET] == old(packed[..])[..SEQUENCE_OFFSET]
  {
    hide TweakBytes, Put, Enciphers, Cipher.Invertible, Cipher.Encrypted, Cipher.Decrypted;
    ghost var plain, all := page[..], packed[..];
    SplicedEnciphers(c, plain, all[SEQUENCE_OFFSET..], pageTweak, tagsTweak);
    var t := InitializeTweakBytes(pageTweak);
    var p := c.Encrypted(t[..], page[..]);
    PutParts(plain, 0, p);
    CopyTo(page, 0, p);
    var tagsSize := packed.Length - SEQUENCE_OFFSET;
    var missing := AES_BLOCK_SIZE - tagsSize;
    var kept := page.Length - missing;
    t := InitializeTweakBytes(tagsTweak);
    var block := c.Encrypted(t[..], packed[..][SEQUENCE_OFFSET..] + page[..][kept..]);
    PutParts(p, kept, block[..missing]);
    PutParts(all, SEQUENCE_OFFSET, block[missing..]);
    CopyTo(page, kept, block[..missing]);
    CopyTo(packed, SEQUENCE_OFFSET, block[missing..]);
  }

  /** The other way round: first the shared block, which gives the end of the enciphered page back. */
  ghost function Unspliced(c: Cipher, page: seq<Octet>, tags: seq<Octet>, pageTweak: int, tagsTweak: int): (seq<Octet>,
          seq<Octet>)
    requires c.Invertible() && |tags| <= AES_BLOCK_SIZE <= |page|
  {
    var missing := AES_BLOCK_SIZE - |tags|;
    var kept := |page| - missing;
    var block := c.Decrypted(TweakBytes(tagsTweak, AES_BLOCK_SIZE), page[kept..] + tags);
    (c.Decrypted(TweakBytes(pageTweak, AES_BLOCK_SIZE), page[..kept] + block[|tags|..]), block[..|tags|])
  }

  method AESXtsDecrypt(c: Cipher, page: array<Octet>, pageTweak: int, packed: array<Octet>, tagsTweak: int)
    requires c.Invertible() && page != packed && AES_BLOCK_SIZE <= page.Length
    requires SEQUENCE_OFFSET <= packed.Length <= SEQUENCE_OFFSET + AES_BLOCK_SIZE
    modifies page, packed
    ensures (page[..], packed[..][SEQUENCE_OFFSET..]) ==
              Unspliced(c, old(page[..]), old(packed[..])[SEQUENCE_OFFSET..], pageTweak, tagsTweak)
    ensures packed[..][..SEQUENCE_OFFSET] == old(packed[..])[..SEQUENCE_OFFSET]
  {
    hide TweakBytes, Put, Cipher.Invertible, Cipher.Encrypted, Cipher.Decrypted;
    ghost var cipherPage, all := page[..], packed[..];
    var tagsSize := packed.Length - SEQUENCE_OFFSET;
    var missing := AES_BLOCK_SIZE - tagsSize;
    var kept := page.Length - missing;
    var t := InitializeTweakBytes(tagsTweak);
    var block := c.Decrypted(t[..], page[..][kept..] + packed[..][SEQUENCE_OFFSET..]);
    PutParts(all, SEQUENCE_OFFSET, block[..tagsSize]);
    PutParts(cipherPage, kept, block[tagsSize..]);
    CopyTo(packed, SEQUENCE_OFFSET, block[..tagsSize]);
    CopyTo(page, kept, block[tagsSize..]);
    t := InitializeTweakBytes(pageTweak);
    var p := c.Decrypted(t[..], page[..]);
    PutParts(page[..], 0, p);
    CopyTo(page, 0, p);
  }

  /** Undoing the splice gives page and tags back, for any invertible cipher and any tweaks. */
  lemma UnspliceUndoesSplice(c: Cipher, page: seq<Octet>, tags: seq<Octet>, pageTweak: int, tagsTweak: int)
    requires c.Invertible() && |tags| <= AES_BLOCK_SIZE <= |page|
    ensures var (p, t) := Spliced(c, page, tags, pageTweak, tagsTweak);
            |p| == |page| && |t| == |tags| && Unspliced(c, p, t, pageTweak, tagsTweak) == (page, tags)
  {
    hide TweakBytes, Cipher.Invertible, Cipher.Encrypted, Cipher.Decrypted;
    var missing := AES_BLOCK_SIZE - |tags|;
    var kept := |page| - missing;
    c.Undone(TweakBytes(pageTweak, AES_BLOCK_SIZE), page);
    var p := c.Encrypted(TweakBytes(pageTweak, AES_BLOCK_SIZE), page);
    var plainBlock := tags + p[kept..];
    var block := c.Encrypted(TweakBytes(tagsTweak, AES_BLOCK_SIZE), plainBlock);
    c.Undone(TweakBytes(tagsTweak, AES_BLOCK_SIZE), plainBlock);
    var page', tags' := p[..kept] + block[..missing], block[missing..];
    assert page'[kept..] == block[..missing] && page'[..kept] == p[..kept];
    assert page'[kept..] + tags' == block;
    assert plainBlock[|tags|..] == p[kept..] && plainBlock[..|tags|] == tags;
    assert p[..kept] + p[kept..] == p;
  }

  /** Tags that look like those of erased flash. */
  predicate LooksErased(packed: seq<Octet>)
    requires |packed| >= SEQUENCE_OFFSET
  {
    forall i | 0 <= i < SEQUENCE_OFFSET :: packed[i] == Ones(8, 8)
  }

  /** A chunk is written enciphered and read back: data and tags come back as they were, unless the
      sequence number is that of erased flash, which is not deciphered. The caller's data is not touched
      by writing. On flash, page and oob, both are enciphered, each under the tweak of its use. */
  method WriteThenRead(c: Cipher, data: array<Octet>, packed: array<Octet>, chunkInNAND: nat)
    returns (readBack: array<Octet>, ghost page: seq<Octet>, ghost oob: seq<Octet>)
    requires c.Invertible() && data != packed && AES_BLOCK_SIZE <= data.Length
    requires SEQUENCE_OFFSET <= packed.Length <= SEQUENCE_OFFSET + AES_BLOCK_SIZE
    modifies packed
    ensures fresh(readBack) && data[..] == old(data[..])
    ensures |page| == data.Length && |oob| == packed.Length
    ensures (page, oob[SEQUENCE_OFFSET..]) ==
              Spliced(c, data[..], old(packed[..])[SEQUENCE_OFFSET..], Tweak(Page(chunkInNAND)),
                Tweak(TagsOf(chunkInNAND)))
    ensures Enciphers(c, data[..], old(packed[..])[SEQUENCE_OFFSET..], Tweak(Page(chunkInNAND)),
                Tweak(TagsOf(chunkInNAND)), page, oob[SEQUENCE_OFFSET..])
    ensures oob[..SEQUENCE_OFFSET] == old(packed[..])[..SEQUENCE_OFFSET]
    ensures packed[..][..SEQUENCE_OFFSET] == old(packed[..])[..SEQUENCE_OFFSET]
    ensures !LooksErased(old(packed[..])) ==> readBack[..] == data[..] && packed[..] == old(packed[..])
    ensures LooksErased(old(packed[..])) ==> readBack[..] == page && packed[..] == oob
  {
    hide TweakBytes, Spliced, Unspliced, Enciphers, Cipher.Invertible;
    ghost var plain, all := data[..], packed[..];
    var encryptedData := new Octet[data.Length](_ => Zero(8));
    PutParts(encryptedData[..], 0, plain);
    CopyTo(encryptedData, 0, data[..]);
    assert encryptedData[..] == plain;
    AESXtsEncrypt(c, encryptedData, chunkInNAND * 2, packed, chunkInNAND * 2 + 1);
    page, oob := encryptedData[..], packed[..];
    UnspliceUndoesSplice(c, plain, all[SEQUENCE_OFFSET..], chunkInNAND * 2, chunkInNAND * 2 + 1);
    SameErased(packed[..], all);
    if !LooksErased(packed[..]) {
      AESXtsDecrypt(c, encryptedData, chunkInNAND * 2, packed, chunkInNAND * 2 + 1);
      SameWhole(packed[..], all);
    }
    readBack := encryptedData;
  }

  lemma SameErased(a: seq<Octet>, b: seq<Octet>)
    requires |a| >= SEQUENCE_OFFSET && |b| >= SEQUENCE_OFFSET && a[..SEQUENCE_OFFSET] == b[..SEQUENCE_OFFSET]
    ensures LooksErased(a) <==> LooksErased(b)
  {
    assert forall i | 0 <= i < SEQUENCE_OFFSET :: a[i] == a[..SEQUENCE_OFFSET][i] == b[..SEQUENCE_OFFSET][i] == b[i];
  }

  lemma SameWhole(a: seq<Octet>, b: seq<Octet>)
    requires |a| == |b| >= SEQUENCE_OFFSET
    requires a[..SEQUENCE_OFFSET] == b[..SEQUENCE_OFFSET] && a[SEQUENCE_OFFSET..] == b[SEQUENCE_OFFSET..]
    ensures a == b
  {
    assert a == a[..SEQUENCE_OFFSET] + a[SEQUENCE_OFFSET..] && b == b[..SEQUENCE_OFFSET] + b[SEQUENCE_OFFSET..];
  }
}
