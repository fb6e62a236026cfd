/** The name/value store of an object: records packed into one small buffer. */
module NameVal {
  type Char = x: int | 0 <= x < 256

  const SIZEOF_INT: nat := 4

  datatype Rec = Rec(name: seq<Char>, value: seq<Char>)

  datatype Code = Done(n: nat) | EEXIST | ENODATA | ENOSPC | ERANGE

  /** A C string: no NUL inside. */
  predicate CString(name: seq<Char>) {
    0 !in name
  }

  function IntBytes(n: nat): (b: seq<Char>)
    requires n < 0x8000_0000
    ensures |b| == SIZEOF_INT
  {
    [n % 256, n / 256 % 256, n / 65536 % 256, n / 16777216]
  }

  /** A signed 32-bit number, the low byte first. */
  function IntAt(mem: seq<Char>, pos: nat): int
    requires pos + SIZEOF_INT <= |mem|
  {
    var u: int := mem[pos] as int + 256 * mem[pos + 1] as int + 65536 * mem[pos + 2] as int + 16777216 * mem[pos + 3] as int;
    if u < 0x8000_0000 then u else u - 0x1_0000_0000
  }

  lemma FourDigits(n: nat)
    ensures n == n % 256 + 256 * (n / 256 % 256) + 65536 * (n / 65536 % 256) + 16777216 * (n / 16777216)
  {
    var p, q, r := n / 256, n / 65536, n / 16777216;
    assert q == p / 256 && r == q / 256;
  }

  lemma IntRoundTrip(mem: seq<Char>, pos: nat, n: nat)
    requires n < 0x8000_0000 && pos + SIZEOF_INT <= |mem| && mem[pos..pos + SIZEOF_INT] == IntBytes(n)
    ensures IntAt(mem, pos) == n
  {
    FourDigits(n);
    var b := mem[pos..pos + SIZEOF_INT];
    assert b[0] == mem[pos] && b[1] == mem[pos + 1] && b[2] == mem[pos + 2] && b[3] == mem[pos + 3];
  }

  function RecLen(r: Rec): nat {
    SIZEOF_INT + |r.name| + 1 + |r.value|
  }

  /** Record size, name, NUL, value. */
  function Enc(r: Rec): (b: seq<Char>)
    requires RecLen(r) < 0x8000_0000
    ensures |b| == RecLen(r)
  {
    IntBytes(RecLen(r)) + r.name + [0] + r.value
  }

  /** The memory looked at: the buffer, and behind it as much as a record written there can reach. */
  function Memory(xbSize: nat): nat {
    2 * xbSize + SIZEOF_INT
  }

  ghost predicate Small(recs: seq<Rec>) {
    forall r | r in recs :: RecLen(r) < 0x8000_0000 && CString(r.name)
  }

  ghost function EncAll(recs: seq<Rec>): seq<Char>
    requires Small(recs)
  {
    if |recs| == 0 then [] else Enc(recs[0]) + EncAll(recs[1..])
  }

  /** Where record i starts. */
  ghost function Off(recs: seq<Rec>, i: nat): nat
    requires Small(recs) && i <= |recs|
  {
    if i == 0 then 0 else Off(recs, i - 1) + RecLen(recs[i - 1])
  }

  lemma {:induction false} EncAllAdds(a: seq<Rec>, b: seq<Rec>)
    requires Small(a) && Small(b)
    ensures Small(a + b) && EncAll(a + b) == EncAll(a) + EncAll(b)
  {
    if |a| == 0 {
      assert a + b == b;
    } else {
      EncAllAdds(a[1..], b);
      assert (a + b)[1..] == a[1..] + b;
      assert (a + b)[0] == a[0];
      Regroup(Enc(a[0]), EncAll(a[1..]), EncAll(b));
    }
  }

  lemma Regroup(a: seq<Char>, b: seq<Char>, c: seq<Char>)
    ensures a + (b + c) == a + b + c
  {
  }

  lemma {:induction false} OffIsLength(recs: seq<Rec>, i: nat)
    requires Small(recs) && i <= |recs|
    ensures Off(recs, i) == |EncAll(recs[..i])|
  {
    if i > 0 {
      OffIsLength(recs, i - 1);
      assert recs[..i] == recs[..i - 1] + [recs[i - 1]];
      EncAllAdds(recs[..i - 1], [recs[i - 1]]);
      assert EncAll([recs[i - 1]]) == Enc(recs[i - 1]) + [];
    }
  }

  /** The records lie one after the other. */
  lemma RecordAt(recs: seq<Rec>, i: nat)
    requires Small(recs) && i < |recs|
    ensures Off(recs, i + 1) == Off(recs, i) + RecLen(recs[i]) <= |EncAll(recs)|
    ensures EncAll(recs)[Off(recs, i)..Off(recs, i + 1)] == Enc(recs[i])
  {
    var r := recs[i];
    OffIsLength(recs, i);
    assert recs == recs[..i] + ([r] + recs[i + 1..]);
    EncAllAdds([r], recs[i + 1..]);
    EncAllAdds(recs[..i], [r] + recs[i + 1..]);
    assert EncAll([r]) == Enc(r) + [];
    Middle(EncAll(recs[..i]), Enc(r), EncAll(recs[i + 1..]));
  }

  lemma Middle(a: seq<Char>, b: seq<Char>, c: seq<Char>)
    ensures (a + (b + c))[|a|..|a| + |b|] == b
  {
  }

  lemma OffEnd(recs: seq<Rec>)
    requires Small(recs)
    ensures Off(recs, |recs|) == |EncAll(recs)|
  {
    OffIsLength(recs, |recs|);
    assert recs[..|recs|] == recs;
  }

  /** A walk over the records stops at used: too near the end, no size there, or a size too large. */
  ghost predicate Stops(mem: seq<Char>, xbSize: nat, used: nat)
    requires |mem| == Memory(xbSize)
  {
    used + SIZEOF_INT >= xbSize || IntAt(mem, used) <= 0 || used + IntAt(mem, used) >= xbSize
  }

  ghost predicate Distinct(recs: seq<Rec>) {
    forall i, j | 0 <= i < j < |recs| :: recs[i].name != recs[j].name
  }

  /** The buffer mem[..xbSize] holds the records; the walk over it ends behind them. */
  ghost predicate Holds(mem: seq<Char>, xbSize: nat, recs: seq<Rec>) {
    && SIZEOF_INT < xbSize < 0x4000_0000 && |mem| == Memory(xbSize)
    && Small(recs) && Distinct(recs)
    && |EncAll(recs)| < xbSize && mem[..|EncAll(recs)|] == EncAll(recs)
    && Stops(mem, xbSize, |EncAll(recs)|)
  }

  /** Behind the records stands at most one more that the walk does not see, since it ends where the buffer
      ends; if there is none, a few zeros, and beyond them what is left of records overwritten. */
  ghost predicate Clean(mem: seq<Char>, xbSize: nat, recs: seq<Rec>, stranded: seq<Rec>) {
    && SIZEOF_INT < xbSize < 0x4000_0000 && |mem| == Memory(xbSize)
    && |stranded| <= 1 && Small(recs + stranded) && Distinct(recs + stranded)
    && |EncAll(recs + stranded)| <= xbSize && (|EncAll(recs + stranded)| == xbSize <==> stranded != [])
    && mem[..|EncAll(recs + stranded)|] == EncAll(recs + stranded)
    && ZeroAt(mem, xbSize, |EncAll(recs + stranded)|)
  }

  predicate ZeroAt(mem: seq<Char>, xbSize: nat, used: nat)
    requires xbSize <= |mem|
  {
    forall k | used <= k < used + SIZEOF_INT && k < xbSize :: mem[k] == 0
  }

  lemma EncStart(r: Rec)
    requires RecLen(r) < 0x8000_0000
    ensures Enc(r)[0..4] == IntBytes(RecLen(r))
  {
    hide IntBytes;
  }

  lemma HeldRecord(mem: seq<Char>, xbSize: nat, recs: seq<Rec>, i: nat)
    requires Holds(mem, xbSize, recs) && i < |recs|
    ensures Off(recs, i + 1) == Off(recs, i) + RecLen(recs[i]) <= |EncAll(recs)| < xbSize
    ensures mem[Off(recs, i)..Off(recs, i + 1)] == Enc(recs[i])
    ensures IntAt(mem, Off(recs, i)) == RecLen(recs[i])
  {
    hide Stops, Distinct, Enc, EncAll, IntBytes;
    RecordAt(recs, i);
    assert recs[i] in recs;
    var lo, hi := Off(recs, i), Off(recs, i + 1);
    assert mem[..|EncAll(recs)|] == mem[0..|EncAll(recs)|];
    SliceOfSlice(mem, 0, |EncAll(recs)|, lo, hi);
    SliceOfSlice(mem, lo, hi, 0, 4);
    EncStart(recs[i]);
    IntRoundTrip(mem, lo, RecLen(recs[i]));
  }

  /** The name and the value in a record. */
  lemma HeldName(mem: seq<Char>, xbSize: nat, recs: seq<Rec>, i: nat)
    requires Holds(mem, xbSize, recs) && i < |recs|
    ensures var at := Off(recs, i) + SIZEOF_INT;
            && at + |recs[i].name| + 1 + |recs[i].value| <= |EncAll(recs)|
            && mem[at..at + |recs[i].name|] == recs[i].name
            && mem[at + |recs[i].name|] == 0
            && mem[at + |recs[i].name| + 1..at + |recs[i].name| + 1 + |recs[i].value|] == recs[i].value
            && CString(recs[i].name)
  {
    hide Enc, EncAll, Holds;
    Bounds(mem, xbSize, recs);
    HeldRecord(mem, xbSize, recs, i);
    assert recs[i] in recs;
    NameInSlice(mem, Off(recs, i), recs[i]);
  }

  lemma NameInSlice(mem: seq<Char>, lo: nat, r: Rec)
    requires RecLen(r) < 0x8000_0000 && lo + RecLen(r) <= |mem| && mem[lo..lo + RecLen(r)] == Enc(r)
    ensures var at, n := lo + SIZEOF_INT, |r.name|;
            mem[at..at + n] == r.name && mem[at + n] == 0 && mem[at + n + 1..at + n + 1 + |r.value|] == r.value
  {
    hide Enc;
    var hi, n := lo + RecLen(r), |r.name|;
    var e := Enc(r);
    EncShape(r);
    SliceOfSlice(mem, lo, hi, 4, 4 + n);
    SliceOfSlice(mem, lo, hi, 4 + n + 1, hi - lo);
    assert mem[lo + 4 + n] == mem[lo..hi][4 + n];
  }

  lemma EncShape(r: Rec)
    requires RecLen(r) < 0x8000_0000
    ensures var e, n := Enc(r), |r.name|;
            e[4..4 + n] == r.name && e[4 + n] == 0 && e[4 + n + 1..RecLen(r)] == r.value && |e| == RecLen(r)
  {
    hide IntBytes;
  }

  lemma SliceOfSlice(s: seq<Char>, lo: nat, hi: nat, a: nat, b: nat)
    requires lo <= hi <= |s| && a <= b <= hi - lo
    ensures s[lo..hi][a..b] == s[lo + a..lo + b]
  {
    var x, y := s[lo..hi][a..b], s[lo + a..lo + b];
    assert |x| == |y|;
    forall k | 0 <= k < b - a
      ensures x[k] == y[k]
    {
      assert s[lo..hi][a + k] == s[lo + (a + k)];
    }
  }

  /** All records but the one with that name. */
  ghost function Without(recs: seq<Rec>, name: seq<Char>): seq<Rec> {
    if |recs| == 0 then [] else (if recs[0].name == name then [] else [recs[0]]) + Without(recs[1..], name)
  }

  lemma {:induction false} WithoutAbsent(recs: seq<Rec>, name: seq<Char>)
    requires forall r | r in recs :: r.name != name
    ensures Without(recs, name) == recs
  {
    if |recs| > 0 {
      WithoutAbsent(recs[1..], name);
    }
  }

  lemma {:induction false} WithoutAt(recs: seq<Rec>, name: seq<Char>, i: nat)
    requires i < |recs| && recs[i].name == name && Distinct(recs)
    ensures Without(recs, name) == recs[..i] + recs[i + 1..]
    decreases i
  {
    if i == 0 {
      WithoutAbsent(recs[1..], name);
    } else {
      assert recs[0].name != name;
      WithoutAt(recs[1..], name, i - 1);
      assert recs[1..][..i - 1] == recs[1..i] && recs[1..][i..] == recs[i + 1..];
    }
  }

  /** The records as a map. */
  ghost function AsMap(recs: seq<Rec>): map<seq<Char>, seq<Char>> {
    if |recs| == 0 then map[] else AsMap(recs[1..])[recs[0].name := recs[0].value]
  }

  lemma {:induction false} AsMapHas(recs: seq<Rec>, i: nat)
    requires Distinct(recs) && i < |recs|
    ensures recs[i].name in AsMap(recs) && AsMap(recs)[recs[i].name] == recs[i].value
    decreases i
  {
    if i > 0 {
      assert recs[0].name != recs[i].name;
      AsMapHas(recs[1..], i - 1);
    }
  }

  lemma {:induction false} AsMapHasNot(recs: seq<Rec>, name: seq<Char>)
    requires forall r | r in recs :: r.name != name
    ensures name !in AsMap(recs)
  {
    if |recs| > 0 {
      AsMapHasNot(recs[1..], name);
    }
  }

  lemma {:induction false} AsMapWithout(recs: seq<Rec>, name: seq<Char>)
    requires Distinct(recs)
    ensures AsMap(Without(recs, name)) == AsMap(recs) - {name}
  {
    if |recs| > 0 {
      AsMapWithout(recs[1..], name);
      var rest := Without(recs[1..], name);
      if recs[0].name == name {
        assert Without(recs, name) == rest;
      } else {
        assert Without(recs, name) == [recs[0]] + rest;
        AsMapCons(recs[0], rest);
      }
    }
  }

  lemma AsMapCons(r: Rec, rest: seq<Rec>)
    ensures AsMap([r] + rest) == AsMap(rest)[r.name := r.value]
  {
    assert ([r] + rest)[1..] == rest;
  }

  lemma {:induction false} AsMapAppend(recs: seq<Rec>, r: Rec)
    requires forall s | s in recs :: s.name != r.name
    ensures AsMap(recs + [r]) == AsMap(recs)[r.name := r.value]
  {
    if |recs| > 0 {
      AsMapAppend(recs[1..], r);
      assert recs[0] in recs;
      assert (recs + [r])[1..] == recs[1..] + [r];
    }
  }

  lemma {:induction false} WithoutIs(recs: seq<Rec>, name: seq<Char>)
    ensures forall r :: r in Without(recs, name) <==> r in recs && r.name != name
    ensures Distinct(recs) ==> Distinct(Without(recs, name))
  {
    if |recs| > 0 {
      var rest := Without(recs[1..], name);
      WithoutIs(recs[1..], name);
      if Distinct(recs) && recs[0].name != name {
        forall j | 0 <= j < |rest|
          ensures rest[j].name != recs[0].name
        {
          assert rest[j] in rest;
          var k :| 1 <= k < |recs| && recs[k] == rest[j];
        }
      }
    }
  }

  /** s with the bytes d at pos. */
  function Overwritten(s: seq<Char>, pos: nat, d: seq<Char>): (r: seq<Char>)
    requires pos + |d| <= |s|
    ensures |r| == |s|
  {
    s[..pos] + d + s[pos + |d|..]
  }

  /** s with n of its bytes moved down from src to dst. */
  function Moved(s: seq<Char>, dst: nat, src: nat, n: nat): (r: seq<Char>)
    requires dst <= src && src + n <= |s|
    ensures |r| == |s|
  {
    s[..dst] + s[src..src + n] + s[dst + n..]
  }

  function AfterMove(s: seq<Char>, dst: nat, src: nat, k: nat, j: nat): Char
    requires dst <= src && src + k <= |s| && j < |s|
  {
    if dst <= j < dst + k then s[j - dst + src] else s[j]
  }

  function Zeros(n: nat): seq<Char> {
    seq(n, _ => 0)
  }

  /** The buffer in full: the records, what is left, and what lies behind it. */
  lemma CleanIs(mem: seq<Char>, xbSize: nat, recs: seq<Rec>, stranded: seq<Rec>)
    requires Clean(mem, xbSize, recs, stranded)
    ensures SIZEOF_INT < xbSize < 0x4000_0000 && |mem| == Memory(xbSize)
    ensures var all := recs + stranded;
            && Small(all) && Distinct(all) && |EncAll(all)| <= xbSize
            && mem == EncAll(all) + mem[|EncAll(all)|..xbSize] + mem[xbSize..]
  {
    hide EncAll, Small, Distinct;
    var used := |EncAll(recs + stranded)|;
    assert mem == mem[..used] + mem[used..xbSize] + mem[xbSize..];
  }

  lemma IsClean(mem: seq<Char>, xbSize: nat, recs: seq<Rec>, left: seq<Char>, behind: seq<Char>)
    requires SIZEOF_INT < xbSize < 0x4000_0000 && Small(recs) && Distinct(recs) && |mem| == Memory(xbSize)
    requires |EncAll(recs)| < xbSize && |left| == xbSize - |EncAll(recs)| && mem == EncAll(recs) + left + behind
    requires forall k | 0 <= k < SIZEOF_INT && k < |left| :: left[k] == 0
    ensures Clean(mem, xbSize, recs, [])
  {
    hide EncAll, Small, Distinct;
    assert recs + [] == recs;
    var used := |EncAll(recs)|;
    assert mem[..used] == EncAll(recs);
    forall k | used <= k < used + SIZEOF_INT && k < xbSize
      ensures mem[k] == 0
    {
      assert mem[k] == left[k - used];
    }
  }

  lemma IsFull(mem: seq<Char>, xbSize: nat, recs: seq<Rec>, r: Rec)
    requires SIZEOF_INT < xbSize < 0x4000_0000 && Small(recs + [r]) && Distinct(recs + [r]) && |mem| == Memory(xbSize)
    requires |EncAll(recs + [r])| == xbSize && mem[..xbSize] == EncAll(recs + [r])
    ensures Clean(mem, xbSize, recs, [r])
  {
  }

  /** The records before and after record i close up, and with them the one that was not seen. */
  lemma Deleted(mem: seq<Char>, xbSize: nat, recs: seq<Rec>, stranded: seq<Rec>, i: nat, mem': seq<Char>)
    requires Clean(mem, xbSize, recs, stranded) && i < |recs| && Small(recs)
    requires Off(recs, i + 1) == Off(recs, i) + RecLen(recs[i]) <= xbSize
    requires mem' == mem[..Off(recs, i)] + mem[Off(recs, i + 1)..xbSize] + Zeros(RecLen(recs[i])) + mem[xbSize..]
    ensures Clean(mem', xbSize, recs[..i] + recs[i + 1..] + stranded, [])
  {
    hide EncAll, Small, Distinct, Off, Clean, Zeros, ZeroAt;
    var all, size := recs + stranded, RecLen(recs[i]);
    CleanIs(mem, xbSize, recs, stranded);
    CleanZero(mem, xbSize, recs, stranded);
    assert all[..i] == recs[..i] && all[i + 1..] == recs[i + 1..] + stranded && all[i] == recs[i];
    assert recs[..i] + recs[i + 1..] + stranded == all[..i] + all[i + 1..];
    OffSame(recs, all, i);
    EncParts(all, i);
    ZerosAt(size);
    var a, b, c, z := EncAll(all[..i]), Enc(all[i]), EncAll(all[i + 1..]), mem[|EncAll(all)|..xbSize];
    hide Enc;
    CloseUp(mem, a, b, c, z, mem[xbSize..], mem');
    IsClean(mem', xbSize, all[..i] + all[i + 1..], z + Zeros(size), mem[xbSize..]);
  }

  lemma {:induction false} OffSame(recs: seq<Rec>, all: seq<Rec>, i: nat)
    requires Small(recs) && Small(all) && i <= |recs| <= |all| && all[..i] == recs[..i]
    ensures Off(all, i) == Off(recs, i)
  {
    if i > 0 {
      assert all[..i][..i - 1] == all[..i - 1] && recs[..i][..i - 1] == recs[..i - 1];
      assert all[i - 1] == all[..i][i - 1] == recs[..i][i - 1];
      OffSame(recs, all, i - 1);
    }
  }

  lemma CleanZero(mem: seq<Char>, xbSize: nat, recs: seq<Rec>, stranded: seq<Rec>)
    requires Clean(mem, xbSize, recs, stranded)
    ensures forall k | 0 <= k < SIZEOF_INT && k < xbSize - |EncAll(recs + stranded)| ::
              mem[|EncAll(recs + stranded)|..xbSize][k] == 0
  {
    hide EncAll;
  }

  lemma ZerosAdd(m: nat, n: nat)
    ensures Zeros(m) + Zeros(n) == Zeros(m + n) && |Zeros(m)| == m
  {
  }

  lemma SmallAt(recs: seq<Rec>, i: nat)
    requires Small(recs) && Distinct(recs) && i < |recs|
    ensures RecLen(recs[i]) < 0x8000_0000 && Small(recs[..i]) && Small(recs[i + 1..])
        && Small(recs[..i] + recs[i + 1..])
    ensures Small([recs[i]]) && Distinct(recs[..i] + recs[i + 1..])
  {
  }

  /** The encoding around record i. */
  lemma EncParts(recs: seq<Rec>, i: nat)
    requires Small(recs) && Distinct(recs) && i < |recs|
    ensures RecLen(recs[i]) < 0x8000_0000 && Small(recs[..i]) && Small(recs[i + 1..])
        && Small(recs[..i] + recs[i + 1..])
    ensures Distinct(recs[..i] + recs[i + 1..])
    ensures EncAll(recs) == EncAll(recs[..i]) + (Enc(recs[i]) + EncAll(recs[i + 1..]))
        && |Enc(recs[i])| == RecLen(recs[i])
    ensures EncAll(recs[..i] + recs[i + 1..]) == EncAll(recs[..i]) + EncAll(recs[i + 1..])
    ensures Off(recs, i) == |EncAll(recs[..i])| && Off(recs, i + 1) == Off(recs, i) + RecLen(recs[i])
  {
    hide Enc, Small, Distinct;
    var r := recs[i];
    SmallAt(recs, i);
    OffIsLength(recs, i);
    assert recs == recs[..i] + ([r] + recs[i + 1..]);
    EncAllAdds([r], recs[i + 1..]);
    EncAllAdds(recs[..i], [r] + recs[i + 1..]);
    EncAllAdds(recs[..i], recs[i + 1..]);
    EncOne(r);
  }

  lemma EncOne(r: Rec)
    requires RecLen(r) < 0x8000_0000 && Small([r])
    ensures EncAll([r]) == Enc(r)
  {
    assert EncAll([r]) == Enc(r) + [];
  }

  lemma CloseUp(mem: seq<Char>, a: seq<Char>, b: seq<Char>, c: seq<Char>, z: seq<Char>, behind: seq<Char>,
          mem': seq<Char>)
    requires mem == a + (b + c) + z + behind
    requires mem' == mem[..|a|] + mem[|a| + |b|..|a| + |b| + |c| + |z|] + Zeros(|b|) + mem[|a| + |b| + |c| + |z|..]
    ensures mem' == (a + c) + (z + Zeros(|b|)) + behind
  {
    assert mem[..|a|] == a;
    assert mem[|a| + |b|..|a| + |b| + |c| + |z|] == c + z;
    assert mem[|a| + |b| + |c| + |z|..] == behind;
  }

  /** A record is written at used, and four zeros behind it. */
  ghost predicate Appended(mem: seq<Char>, xbSize: nat, used: nat, r: Rec, mem': seq<Char>)
    requires RecLen(r) < 0x8000_0000
  {
    && |mem| == Memory(xbSize) && used < xbSize && RecLen(r) <= xbSize
    && mem' == Overwritten(mem, used, Enc(r) + Zeros(SIZEOF_INT))
  }

  /** It is the last one now; what was behind the others before it is gone. */
  lemma AppendedIsClean(mem: seq<Char>, xbSize: nat, recs: seq<Rec>, r: Rec, mem': seq<Char>)
    requires Holds(mem, xbSize, recs) && RecLen(r) < 0x8000_0000 && CString(r.name)
    requires Appended(mem, xbSize, |EncAll(recs)|, r, mem') && forall s | s in recs :: s.name != r.name
    ensures Small(recs + [r])
    ensures |EncAll(recs)| + RecLen(r) < xbSize ==> Clean(mem', xbSize, recs + [r], [])
    ensures |EncAll(recs)| + RecLen(r) == xbSize ==> Clean(mem', xbSize, recs, [r])
  {
    hide Enc, EncAll, Small, Distinct, Stops, Clean, Overwritten, Zeros;
    OneMoreRec(recs, r);
    var used, n := |EncAll(recs)|, RecLen(r);
    AppendedBytes(mem, xbSize, EncAll(recs), r, mem');
    if used + n < xbSize {
      assert mem' == mem'[..used + n] + mem'[used + n..xbSize] + mem'[xbSize..];
      IsClean(mem', xbSize, recs + [r], mem'[used + n..xbSize], mem'[xbSize..]);
    } else if used + n == xbSize {
      IsFull(mem', xbSize, recs, r);
    }
  }

  lemma OneMoreRec(recs: seq<Rec>, r: Rec)
    requires Small(recs) && Distinct(recs) && RecLen(r) < 0x8000_0000 && CString(r.name)
    requires forall s | s in recs :: s.name != r.name
    ensures Small(recs + [r]) && Distinct(recs + [r])
    ensures EncAll(recs + [r]) == EncAll(recs) + Enc(r) && |Enc(r)| == RecLen(r)
  {
    hide Enc;
    EncAllAdds(recs, [r]);
    EncOne(r);
  }

  lemma AppendedBytes(mem: seq<Char>, xbSize: nat, enc: seq<Char>, r: Rec, mem': seq<Char>)
    requires RecLen(r) < 0x8000_0000 && Appended(mem, xbSize, |enc|, r, mem') && mem[..|enc|] == enc
    ensures |mem'| == |mem| && mem'[..|enc| + RecLen(r)] == enc + Enc(r)
    ensures forall k | |enc| + RecLen(r) <= k < |enc| + RecLen(r) + SIZEOF_INT :: mem'[k] == 0
  {
    hide Enc;
    ZerosAt(SIZEOF_INT);
    assert mem'[..|enc|] == enc;
    assert mem'[|enc|..|enc| + RecLen(r)] == Enc(r);
    assert mem'[..|enc| + RecLen(r)] == mem'[..|enc|] + mem'[|enc|..|enc| + RecLen(r)];
  }

  /** A record that reaches the end of the buffer, or goes beyond it, is not seen. */
  lemma TooLongIsNotSeen(mem: seq<Char>, xbSize: nat, recs: seq<Rec>, r: Rec, mem': seq<Char>)
    requires Holds(mem, xbSize, recs) && RecLen(r) < 0x8000_0000
    requires Appended(mem, xbSize, |EncAll(recs)|, r, mem') && |EncAll(recs)| + RecLen(r) >= xbSize
    ensures Holds(mem', xbSize, recs)
  {
    hide EncAll, Small, Distinct;
    var used, n := |EncAll(recs)|, RecLen(r);
    assert mem'[..used] == mem[..used];
    assert mem'[used..used + 4] == Enc(r)[..4] == IntBytes(n);
    IntRoundTrip(mem', used, n);
  }

  class Store {
    const mem: array<Char>
    const xbSize: nat
    ghost var recs: seq<Rec>
    /** The record that a walk over the buffer does not see, if there is one: it ends where the buffer ends. */
    ghost var stranded: seq<Rec>

    ghost predicate Readable()
      reads this, mem
    {
      Holds(mem[..], xbSize, recs)
    }

    ghost predicate Valid()
      reads this, mem
    {
      Clean(mem[..], xbSize, recs, stranded)
    }

    lemma ValidIsReadable()
      requires Valid()
      ensures Readable() && mem.Length == Memory(xbSize)
    {
      CleanHolds(mem[..], xbSize, recs, stranded);
    }

    /** A zeroed buffer is an empty store. */
    constructor (size: nat)
      requires SIZEOF_INT < size < 0x4000_0000
      ensures Valid() && fresh(mem) && xbSize == size && recs == stranded == [] && AsMap(recs) == map[]
    {
      xbSize := size;
      mem := new Char[Memory(size)](_ => 0);
      recs, stranded := [], [];
      new;
      assert mem[..] == EncAll([]) + mem[..size] + mem[size..];
      IsClean(mem[..], size, [], mem[..size], mem[size..]);
    }

    /** Are name and the string at pos equal over n bytes, or up to their end? */
    method StrNCmp(pos: nat, name: seq<Char>, n: nat, ghost i: nat) returns (equal: bool)
      requires Readable() && CString(name) && i < |recs| && pos == Off(recs, i) + SIZEOF_INT && n == RecLen(recs[i])
      ensures equal <==> recs[i].name == name
    {
      hide Holds, Enc, EncAll;
      HeldName(mem[..], xbSize, recs, i);
      Bounds(mem[..], xbSize, recs);
      ghost var held := recs[i].name;
      NoNul(held);
      NoNul(name);
      var k := 0;
      while k < n
        invariant 0 <= k <= |held| && k <= |name| && held[..k] == name[..k]
      {
        assert k < |held| ==> mem[pos + k] == mem[..][pos..pos + |held|][k] == held[k];
        var b: Char := if k < |name| then name[k] else 0;
        if mem[pos + k] != b {
          if k < |held| && k < |name| {
            assert held[k] != name[k];
          }
          return false;
        }
        if b == 0 {
          assert held == held[..k] && name == name[..k];
          return true;
        }
        assert k < |held| && k < |name|;
        k := k + 1;
      }
      assert false;
    }

    /** The size of the record at pos; none near the end. */
    method SizeAt(pos: nat, ghost i: nat) returns (size: int)
      requires Readable() && i <= |recs| && pos == Off(recs, i)
      ensures i < |recs| ==> size == RecLen(recs[i]) && pos + size < xbSize
      ensures i == |recs| ==> !(size > 0 && size < xbSize && pos + size < xbSize)
    {
      hide Enc, EncAll, Distinct, Small;
      if i < |recs| {
        HeldRecord(mem[..], xbSize, recs, i);
      } else {
        OffEnd(recs);
      }
      if pos + SIZEOF_INT < xbSize {
        size := IntAt(mem[..], pos);
      } else {
        size := 0;
      }
    }

    /** The position and size of the record with a name; -1 if there is none. */
    method Find(name: seq<Char>) returns (pos: int, existSize: nat, ghost i: nat)
      requires Readable() && CString(name)
      ensures pos < 0 ==> pos == -1 && existSize == 0 && forall r | r in recs :: r.name != name
      ensures pos >= 0 ==> i < |recs| && recs[i].name == name && pos == Off(recs, i) && existSize == RecLen(recs[i]) && pos < xbSize
    {
      hide Enc, EncAll, Holds;
      Bounds(mem[..], xbSize, recs);
      pos := 0;
      i := 0;
      var size := SizeAt(0, 0);
      while size > 0 && size < xbSize && pos + size < xbSize
        invariant i <= |recs| && pos == Off(recs, i)
        invariant i < |recs| ==> size == RecLen(recs[i]) && pos + size < xbSize
        invariant i == |recs| ==> !(size > 0 && size < xbSize && pos + size < xbSize)
        invariant forall j | 0 <= j < i :: recs[j].name != name
        decreases |recs| - i
      {
        var equal := StrNCmp(pos + SIZEOF_INT, name, size, i);
        if equal {
          existSize := size;
          return;
        }
        pos := pos + size;
        i := i + 1;
        size := SizeAt(pos, i);
      }
      existSize := 0;
      pos := -1;
    }

    method Used() returns (pos: nat)
      requires Readable()
      ensures pos == |EncAll(recs)| < xbSize
    {
      hide Enc, EncAll, Holds;
      Bounds(mem[..], xbSize, recs);
      pos := 0;
      ghost var i := 0;
      var size := SizeAt(0, 0);
      while size > 0 && size < xbSize && pos + size < xbSize
        invariant i <= |recs| && pos == Off(recs, i)
        invariant i < |recs| ==> size == RecLen(recs[i]) && pos + size < xbSize
        invariant i == |recs| ==> !(size > 0 && size < xbSize && pos + size < xbSize)
        decreases |recs| - i
      {
        pos := pos + size;
        i := i + 1;
        size := SizeAt(pos, i);
      }
      OffEnd(recs);
    }

    /** Move n bytes down from src to dst. */
    method MoveDown(dst: nat, src: nat, n: nat)
      requires dst <= src && src + n <= mem.Length
      modifies mem
      ensures mem[..] == Moved(old(mem[..]), dst, src, n)
    {
      ghost var s := mem[..];
      var k := 0;
      while k < n
        invariant 0 <= k <= n
        invariant forall j | 0 <= j < mem.Length :: mem[j] == AfterMove(s, dst, src, k, j)
      {
        assert mem[src + k] == s[src + k];
        mem[dst + k] := mem[src + k];
        k := k + 1;
      }
      MovedIs(s, dst, src, n, mem[..]);
    }

    /** Put bytes at pos. */
    method Put(pos: nat, bytes: seq<Char>)
      requires pos + |bytes| <= mem.Length
      modifies mem
      ensures mem[..] == Overwritten(old(mem[..]), pos, bytes)
    {
      ghost var s := mem[..];
      var k := 0;
      while k < |bytes|
        invariant 0 <= k <= |bytes|
        invariant forall j | 0 <= j < mem.Length :: mem[j] == if pos <= j < pos + k then bytes[j - pos] else s[j]
      {
        mem[pos + k] := bytes[k];
        k := k + 1;
      }
      OverwrittenIs(s, pos, bytes, mem[..]);
    }

    method RemoveBytes(pos: nat, size: nat)
      requires mem.Length == Memory(xbSize) && pos + size <= xbSize
      modifies mem
      ensures mem[..] == old(mem[..])[..pos] + old(mem[..])[pos + size..xbSize] + Zeros(size) + old(mem[..])[xbSize..]
      ensures mem[xbSize..] == old(mem[xbSize..])
    {
      hide Zeros, Overwritten, Moved;
      MoveDown(pos, pos + size, xbSize - (pos + size));
      ZerosAdd(size, 0);
      Put(xbSize - size, Zeros(size));
      DelBytes(old(mem[..]), xbSize, pos, size, mem[..]);
    }

    /** Shift the rest over record i, then zero the end of the buffer. */
    method Remove(pos: nat, ghost i: nat)
      requires Valid() && i < |recs| && Small(recs) && pos == Off(recs, i)
      modifies this, mem
      ensures Valid() && recs == old(recs)[..i] + old(recs)[i + 1..] + old(stranded) && stranded == []
      ensures mem[xbSize..] == old(mem[xbSize..])
    {
      hide Enc, EncAll, Holds, Clean, Distinct, Zeros, Overwritten, Off, RecLen, Small, IntAt;
      ghost var was := mem[..];
      CleanHolds(mem[..], xbSize, recs, stranded);
      Bounds(mem[..], xbSize, recs);
      HeldRecord(mem[..], xbSize, recs, i);
      var size := IntAt(mem[..], pos);
      assert pos + size == Off(recs, i + 1);
      RemoveBytes(pos, size);
      Deleted(was, xbSize, recs, stranded, i, mem[..]);
      recs, stranded := recs[..i] + recs[i + 1..] + stranded, [];
    }

    /** Remove a name: the records behind close up, and the end of the buffer is zeroed. A record that was
        not seen, since it ended at the end of the buffer, is moved too, and is seen from then on. */
    method Del(name: seq<Char>) returns (code: Code)
      requires Valid() && CString(name)
      modifies this, mem
      ensures Valid() && recs == Rest(old(recs), old(stranded), name)
      ensures code == if name in AsMap(old(recs)) then Done(0) else ENODATA
      ensures stranded == if code.ENODATA? then old(stranded) else []
      ensures AsMap(recs) == AsMap(old(recs)) - {name} <==> code.ENODATA? || old(stranded) == []
      ensures code == Done(0) && old(stranded) != [] ==>
                var x := old(stranded)[0]; AsMap(recs) == (AsMap(old(recs)) - {name})[x.name := x.value]
      ensures mem[xbSize..] == old(mem[xbSize..])
      ensures code.ENODATA? ==> mem[..] == old(mem[..]) && recs == old(recs)
    {
      hide Enc, EncAll, Holds, Clean, AsMap, Distinct;
      CleanHolds(mem[..], xbSize, recs, stranded);
      Bounds(mem[..], xbSize, recs);
      CleanNames(mem[..], xbSize, recs, stranded);
      RestMap(recs, stranded, name);
      var pos, existSize, i := Find(name);
      if pos >= 0 {
        AsMapHas(recs, i);
        WithoutAt(recs, name, i);
        Remove(pos, i);
        code := Done(0);
      } else {
        AsMapHasNot(recs, name);
        code := ENODATA;
      }
    }

    /** Write a record at start. The copy of the name is padded to the record length, which overruns the
        record by four bytes; the value then goes over the padding. */
    method Append(start: nat, name: seq<Char>, value: seq<Char>, reclen: nat)
      requires mem.Length == Memory(xbSize) && reclen == RecLen(Rec(name, value)) < 0x8000_0000
          && start < xbSize && reclen <= xbSize
      modifies mem
      ensures Appended(old(mem[..]), xbSize, start, Rec(name, value), mem[..])
    {
      hide IntBytes, Zeros, Overwritten, Enc;
      ghost var s := mem[..];
      ZerosAdd(reclen - |name|, 0);
      ZerosAdd(SIZEOF_INT, 0);
      Put(start, IntBytes(reclen));
      Put(start + SIZEOF_INT, name + Zeros(reclen - |name|));
      Put(start + SIZEOF_INT + |name| + 1, value);
      AppendBytes(s, start, Rec(name, value), mem[..]);
    }

    /** Set a name to a value. It fails, and changes nothing, when the flags ask for a name that is there
        or is not there, or when the record does not fit in the space the other names leave. Otherwise the
        record is written behind those a deletion of the name leaves. If that leaves a byte of the buffer
        free, the store then maps the name to the value, and all other names as they were left.
        A record that ends where the buffer ends is not seen as long as it does. The space is computed from
        the records seen, before the deletion. So when a name is replaced while there is a record not seen,
        which the deletion brings back, a longer value is written past the end of the buffer, and is lost.
        The copy of the name is padded: four bytes behind the record become zero, in the buffer or behind it. */
    method Set(name: seq<Char>, value: seq<Char>, create: bool, replace: bool) returns (code: Code)
      requires Valid() && CString(name) && |value| < 0x3000_0000
      modifies this, mem
      ensures code == SetCode(old(recs), xbSize, name, value, create, replace)
      ensures code != Done(0) ==> Valid() && mem[..] == old(mem[..]) && recs == old(recs) && stranded == old(stranded)
      ensures code == Done(0) ==>
                var r, rest := Rec(name, value), Rest(old(recs), old(stranded), name);
                && Small(rest) && name !in AsMap(rest)
                && (|EncAll(rest)| + RecLen(r) < xbSize ==>
                      Valid() && recs == rest + [r] && stranded == [] && AsMap(recs) == AsMap(rest)[name := value])
                && (|EncAll(rest)| + RecLen(r) == xbSize ==> Valid() && recs == rest && stranded == [r])
                && (|EncAll(rest)| + RecLen(r) > xbSize ==> Readable() && recs == rest && stranded == [])
                && |EncAll(rest)| < xbSize
                && mem[..][xbSize..] == Spilt(old(mem[..])[xbSize..], Beyond(r, xbSize - |EncAll(rest)|))
      ensures code == Done(0) ==>
                (|EncAll(Rest(old(recs), old(stranded), name))| + RecLen(Rec(name, value)) > xbSize <==>
                 old(stranded) != [] && name in AsMap(old(recs)) && |value| > |AsMap(old(recs))[name]|)
      ensures code == Done(0) ==>
                (mem[..][xbSize..] == old(mem[..])[xbSize..] <==>
                 Beyond(Rec(name, value), xbSize - |EncAll(Rest(old(recs), old(stranded), name))|)
                     <= old(mem[..])[xbSize..])
    {
      hide Enc, EncAll, Holds, Clean, AsMap, Distinct, Small, CString, Spilt, Without, Rest, Beyond, Appended;
      CleanHolds(mem[..], xbSize, recs, stranded);
      Bounds(mem[..], xbSize, recs);
      ghost var behind := mem[..][xbSize..];
      CleanNames(mem[..], xbSize, recs, stranded);
      SpaceIs(recs, xbSize, name);
      RestIs(recs, stranded, name);
      var namelen := if |name| < xbSize then |name| else xbSize;
      var pos, sizeExist, i := Find(name);
      if pos >= 0 {
        AsMapHas(recs, i);
        SpaceWith(recs, xbSize, name, i);
        RestLength(mem[..], xbSize, recs, stranded, name, i);
      } else {
        AsMapHasNot(recs, name);
        WithoutAbsent(recs, name);
        RestAbsent(recs, stranded, name);
      }
      if create && pos >= 0 {
        return EEXIST;
      }
      if replace && pos < 0 {
        return ENODATA;
      }
      var start := Used();
      var space := xbSize - start + sizeExist;
      var reclen := SIZEOF_INT + namelen + 1 + |value|;
      if reclen > space {
        return ENOSPC;
      }
      if pos >= 0 {
        var deleted := Del(name);
        CleanHolds(mem[..], xbSize, recs, stranded);
        start := Used();
      }
      ghost var before := mem[..];
      Append(start, name, value, reclen);
      Finish(before, name, value);
      SpiltSame(behind, Beyond(Rec(name, value), xbSize - start));
      code := Done(0);
    }

    /** Account for the record just written. */
    ghost method Finish(before: seq<Char>, name: seq<Char>, value: seq<Char>)
      requires RecLen(Rec(name, value)) < 0x8000_0000 && CString(name) && Holds(before, xbSize, recs)
      requires Appended(before, xbSize, |EncAll(recs)|, Rec(name, value), mem[..])
      requires forall r | r in recs :: r.name != name
      modifies `recs, `stranded
      ensures |EncAll(old(recs))| < xbSize
      ensures |EncAll(old(recs))| + RecLen(Rec(name, value)) < xbSize ==>
          Valid() && recs == old(recs) + [Rec(name, value)] && stranded == []
      ensures |EncAll(old(recs))| + RecLen(Rec(name, value)) < xbSize ==> AsMap(recs) == AsMap(old(recs))[name := value]
      ensures |EncAll(old(recs))| + RecLen(Rec(name, value)) == xbSize ==>
          Valid() && recs == old(recs) && stranded == [Rec(name, value)]
      ensures |EncAll(old(recs))| + RecLen(Rec(name, value)) > xbSize ==>
          Readable() && recs == old(recs) && stranded == []
      ensures |Beyond(Rec(name, value), xbSize - |EncAll(old(recs))|)| <= |before| - xbSize
      ensures mem[..][xbSize..] == Spilt(before[xbSize..], Beyond(Rec(name, value), xbSize - |EncAll(old(recs))|))
    {
      hide Enc, EncAll, Holds, Clean, AsMap, Distinct, Small, CString, Appended, Spilt, Beyond;
      Bounds(before, xbSize, recs);
      ghost var r, used := Rec(name, value), |EncAll(recs)|;
      AppendedBehind(before, xbSize, used, r, mem[..]);
      AppendedIsClean(before, xbSize, recs, r, mem[..]);
      AsMapAppend(recs, r);
      if used + RecLen(r) < xbSize {
        recs, stranded := recs + [r], [];
      } else if used + RecLen(r) == xbSize {
        stranded := [r];
      } else {
        TooLongIsNotSeen(before, xbSize, recs, r, mem[..]);
        stranded := [];
      }
    }

    /** The value of a name goes to buf, if it fits; the rest of buf stays. */
    method Get(name: seq<Char>, buf: array<Char>) returns (code: Code)
      requires Readable() && CString(name) && buf != mem
      modifies buf
      ensures name !in AsMap(recs) ==> code == ENODATA && buf[..] == old(buf[..])
      ensures name in AsMap(recs) && |AsMap(recs)[name]| > buf.Length ==> code == ERANGE && buf[..] == old(buf[..])
      ensures name in AsMap(recs) && |AsMap(recs)[name]| <= buf.Length ==>
                code == Done(|AsMap(recs)[name]|) && buf[..] == AsMap(recs)[name] + old(buf[..])[|AsMap(recs)[name]|..]
    {
      hide Enc, EncAll, Holds, AsMap, Distinct, Small;
      Bounds(mem[..], xbSize, recs);
      var pos, existSize, i := Find(name);
      if pos < 0 {
        AsMapHasNot(recs, name);
        return ENODATA;
      }
      AsMapHas(recs, i);
      HeldRecord(mem[..], xbSize, recs, i);
      HeldName(mem[..], xbSize, recs, i);
      assert mem[pos + SIZEOF_INT..pos + SIZEOF_INT + |name|] == name;
      NameBytes(mem, pos + SIZEOF_INT, name);
      var size := IntAt(mem[..], pos);
      var at: nat := pos + SIZEOF_INT;
      size := size - SIZEOF_INT;
      ghost var nameAt: nat := at;
      while at < xbSize && mem[at] != 0 && size > 0
        invariant nameAt <= at <= nameAt + |name| && size == RecLen(recs[i]) - SIZEOF_INT - (at - nameAt)
      {
        assert at < nameAt + |name|;
        at := at + 1;
        size := size - 1;
      }
      assert at == nameAt + |name|;
      at := at + 1;
      size := size - 1;
      if size > buf.Length {
        return ERANGE;
      }
      CopyOut(at, size, buf, recs[i].value);
      code := Done(size);
    }

    method CopyOut(at: nat, n: nat, buf: array<Char>, ghost value: seq<Char>)
      requires buf != mem && at + n <= mem.Length && n <= buf.Length && mem[at..at + n] == value
      modifies buf
      ensures buf[..] == value + old(buf[..])[n..]
    {
      ghost var was := buf[..];
      var k := 0;
      while k < n
        invariant 0 <= k <= n && buf[..k] == value[..k] && buf[k..] == was[k..]
      {
        assert mem[at + k] == mem[at..at + n][k];
        buf[k] := mem[at + k];
        k := k + 1;
      }
      assert buf[..] == buf[..n] + buf[n..];
    }

    method StrNLen(at: nat, limit: nat, ghost held: seq<Char>) returns (n: nat)
      requires CString(held) && |held| < limit && at + limit <= mem.Length
      requires mem[at..at + |held|] == held && mem[at + |held|] == 0
      ensures n == |held|
    {
      NameBytes(mem, at, held);
      n := 0;
      while n < limit && mem[at + n] != 0
        invariant n <= |held|
      {
        assert n < |held|;
        n := n + 1;
      }
    }

    /** A name and its NUL to position n of buf. */
    method CopyName(at: nat, nameLen: nat, buf: array<Char>, n: nat, ghost held: seq<Char>)
      requires buf != mem && nameLen == |held| && at + nameLen <= mem.Length && mem[at..at + nameLen] == held
      requires n + nameLen + 1 <= buf.Length
      modifies buf
      ensures buf[..n + nameLen + 1] == old(buf[..n]) + (held + [0])
      ensures buf[n + nameLen + 1..] == old(buf[n + nameLen + 1..])
    {
      ghost var was := buf[..];
      var k := 0;
      while k < nameLen
        invariant 0 <= k <= nameLen
        invariant buf[..n] == was[..n] && buf[n..n + k] == held[..k] && buf[n + k..] == was[n + k..]
      {
        assert mem[at + k] == mem[at..at + nameLen][k];
        buf[n + k] := mem[at + k];
        k := k + 1;
      }
      buf[n + nameLen] := 0;
      assert buf[..n + nameLen + 1] == buf[..n] + buf[n..n + nameLen] + [0];
    }

    /** The name of one record, if it fits. */
    method ListOne(pos: nat, size: nat, buf: array<Char>, n: nat, ghost i: nat) returns (ncopied: nat, filled: bool)
      requires Readable() && buf != mem && i < |recs| && pos == Off(recs, i) && size == RecLen(recs[i])
          && n <= buf.Length
      modifies buf
      ensures n <= ncopied <= buf.Length && buf[ncopied..] == old(buf[ncopied..])
      ensures buf[..ncopied] + StillFits(recs, i + 1, ncopied, buf.Length, filled)
          == old(buf[..n]) + StillFits(recs, i, n, buf.Length, false)
    {
      hide Enc, EncAll, Holds, Distinct, Small, NamesThatFit, StillFits, CString;
      Bounds(mem[..], xbSize, recs);
      HeldRecord(mem[..], xbSize, recs, i);
      HeldName(mem[..], xbSize, recs, i);
      var nameLen := StrNLen(pos + SIZEOF_INT, size - SIZEOF_INT, recs[i].name);
      ghost var sofar := buf[..n];
      NameListed(recs, i, n, buf.Length, sofar);
      if n + nameLen + 1 < buf.Length {
        CopyName(pos + SIZEOF_INT, nameLen, buf, n, recs[i].name);
        return n + nameLen + 1, false;
      }
      return n, true;
    }

    /** The names, each with its NUL, in the order of the records, as far as they fit. */
    method List(buf: array<Char>) returns (ncopied: nat)
      requires Readable() && buf != mem
      modifies buf
      ensures ncopied == |NamesThatFit(recs, 0, buf.Length)| <= buf.Length
      ensures buf[..ncopied] == NamesThatFit(recs, 0, buf.Length) && buf[ncopied..] == old(buf[ncopied..])
    {
      hide Enc, EncAll, Holds, AsMap, Distinct, Small, NamesThatFit, StillFits;
      Bounds(mem[..], xbSize, recs);
      StillFitsEnds(recs, buf.Length);
      var pos := 0;
      var filled := false;
      ghost var i := 0;
      ncopied := 0;
      ghost var was := buf[..];
      var size := SizeAt(0, 0);
      while size > SIZEOF_INT && size <= xbSize && pos + size < xbSize && !filled
        invariant i <= |recs| && pos == Off(recs, i) && ncopied <= buf.Length
        invariant i < |recs| ==> size == RecLen(recs[i]) && pos + size < xbSize
        invariant i == |recs| ==> !(size > 0 && size < xbSize && pos + size < xbSize)
        invariant buf[..ncopied] + StillFits(recs, i, ncopied, buf.Length, filled) == NamesThatFit(recs, 0, buf.Length)
        invariant buf[ncopied..] == was[ncopied..]
        decreases |recs| - i
      {
        ncopied, filled := ListOne(pos, size, buf, ncopied, i);
        pos := pos + size;
        i := i + 1;
        size := SizeAt(pos, i);
      }
      Nothing(recs, ncopied, buf.Length, filled);
      assert buf[..ncopied] + [] == buf[..ncopied];
    }
  }

  /** The names of the records from the first on, each with its NUL, until one would leave no byte free
      behind it; n bytes are taken already. */
  ghost function NamesThatFit(recs: seq<Rec>, n: nat, bsize: nat): seq<Char> {
    if |recs| == 0 || n + |recs[0].name| + 1 >= bsize then []
    else recs[0].name + [0] + NamesThatFit(recs[1..], n + |recs[0].name| + 1, bsize)
  }

  ghost function StillFits(recs: seq<Rec>, i: nat, n: nat, bsize: nat, filled: bool): seq<Char>
    requires i <= |recs|
  {
    if filled then [] else NamesThatFit(recs[i..], n, bsize)
  }

  lemma StillFitsEnds(recs: seq<Rec>, bsize: nat)
    ensures StillFits(recs, 0, 0, bsize, false) == NamesThatFit(recs, 0, bsize)
  {
    assert recs[0..] == recs;
  }

  lemma Nothing(recs: seq<Rec>, n: nat, bsize: nat, filled: bool)
    ensures StillFits(recs, |recs|, n, bsize, filled) == [] && StillFits(recs, 0, n, bsize, true) == []
    ensures forall i: nat | i <= |recs| :: StillFits(recs, i, n, bsize, true) == []
  {
  }

  lemma NameListed(recs: seq<Rec>, i: nat, n: nat, bsize: nat, sofar: seq<Char>)
    requires i < |recs|
    ensures var m := n + |recs[i].name| + 1;
            if m >= bsize then StillFits(recs, i, n, bsize, false) == StillFits(recs, i + 1, n, bsize, true)
            else sofar + StillFits(recs, i, n, bsize, false) == sofar + (recs[i].name + [0]) + StillFits(recs, i + 1, m, bsize, false)
  {
    hide NamesThatFit;
    NextFits(recs, i, n, bsize);
    Regroup(sofar, recs[i].name + [0], NamesThatFit(recs[i + 1..], n + |recs[i].name| + 1, bsize));
  }

  lemma NextFits(recs: seq<Rec>, i: nat, n: nat, bsize: nat)
    requires i < |recs|
    ensures NamesThatFit(recs[i..], n, bsize) ==
              if n + |recs[i].name| + 1 >= bsize then []
              else recs[i].name + [0] + NamesThatFit(recs[i + 1..], n + |recs[i].name| + 1, bsize)
  {
    assert recs[i..][0] == recs[i] && recs[i..][1..] == recs[i + 1..];
  }

  /** All names, each with its NUL. */
  ghost function AllNames(recs: seq<Rec>): seq<Char> {
    if |recs| == 0 then [] else recs[0].name + [0] + AllNames(recs[1..])
  }

  /** A buffer larger than the list gets all of it; a smaller one gets whole names from its start. */
  lemma {:induction false} ListIsPrefix(recs: seq<Rec>, n: nat, bsize: nat)
    ensures NamesThatFit(recs, n, bsize) == AllNames(recs) <==> (recs == [] || n + |AllNames(recs)| < bsize)
    ensures exists k: nat :: k <= |recs| && NamesThatFit(recs, n, bsize) == AllNames(recs[..k])
    ensures NamesThatFit(recs, n, bsize) != [] ==> n + |NamesThatFit(recs, n, bsize)| < bsize
  {
    if |recs| == 0 || n + |recs[0].name| + 1 >= bsize {
      assert recs[..0] == [] && AllNames(recs[..0]) == [];
    } else {
      ListIsPrefix(recs[1..], n + |recs[0].name| + 1, bsize);
      var k: nat :| k <= |recs| - 1 && NamesThatFit(recs[1..], n + |recs[0].name| + 1, bsize)
          == AllNames(recs[1..][..k]);
      assert recs[..k + 1][1..] == recs[1..][..k];
      assert NamesThatFit(recs, n, bsize) == AllNames(recs[..k + 1]);
      var head, fit, all := recs[0].name + [0], NamesThatFit(recs[1..], n + |recs[0].name| + 1, bsize),
          AllNames(recs[1..]);
      SameTail(head, fit, all);
    }
  }

  lemma SameTail(head: seq<Char>, x: seq<Char>, y: seq<Char>)
    ensures head + x == head + y <==> x == y
  {
    assert (head + x)[|head|..] == x && (head + y)[|head|..] == y;
  }

  /** The space a record may take once the old one of that name is gone. */
  ghost function Space(recs: seq<Rec>, xbSize: nat, name: seq<Char>): int
    requires Small(recs)
  {
    WithoutIs(recs, name);
    xbSize - |EncAll(Without(recs, name))|
  }

  ghost function SetCode(recs: seq<Rec>, xbSize: nat, name: seq<Char>, value: seq<Char>, create: bool,
          replace: bool): Code
    requires Small(recs)
  {
    if create && name in AsMap(recs) then EEXIST
    else if replace && name !in AsMap(recs) then ENODATA
    else if RecLen(Rec(name, value)) > Space(recs, xbSize, name) then ENOSPC
    else Done(0)
  }

  lemma SpaceIs(recs: seq<Rec>, xbSize: nat, name: seq<Char>)
    requires Small(recs)
    ensures Small(Without(recs, name)) && Space(recs, xbSize, name) == xbSize - |EncAll(Without(recs, name))| <= xbSize
  {
    WithoutIs(recs, name);
  }

  lemma SpaceWith(recs: seq<Rec>, xbSize: nat, name: seq<Char>, i: nat)
    requires Small(recs) && Distinct(recs) && i < |recs| && recs[i].name == name
    ensures Space(recs, xbSize, name) == xbSize - |EncAll(recs)| + RecLen(recs[i])
  {
    hide Enc, EncAll;
    WithoutAt(recs, name, i);
    EncParts(recs, i);
  }

  /** The records that a walk sees after the deletion of a name: without it, and with the one not seen
      before, if anything was deleted. */
  ghost function Rest(recs: seq<Rec>, stranded: seq<Rec>, name: seq<Char>): seq<Rec> {
    if name in AsMap(recs) then Without(recs, name) + stranded else recs
  }

  lemma {:induction false} AsMapNames(recs: seq<Rec>, name: seq<Char>)
    ensures name in AsMap(recs) <==> exists r :: r in recs && r.name == name
  {
    if |recs| > 0 {
      AsMapNames(recs[1..], name);
      assert forall r | r in recs :: r == recs[0] || r in recs[1..];
      assert recs[0] in recs;
    }
  }

  lemma CleanNames(mem: seq<Char>, xbSize: nat, recs: seq<Rec>, stranded: seq<Rec>)
    requires Clean(mem, xbSize, recs, stranded)
    ensures |stranded| <= 1 && Small(recs) && Small(recs + stranded) && Distinct(recs) && Distinct(recs + stranded)
  {
    assert (recs + stranded)[..|recs|] == recs;
    assert forall r | r in recs :: r in recs + stranded;
    assert forall i | 0 <= i < |recs| :: (recs + stranded)[i] == recs[i];
  }

  lemma StrandedName(recs: seq<Rec>, stranded: seq<Rec>)
    requires Distinct(recs + stranded)
    ensures forall r, x | r in recs && x in stranded :: r.name != x.name
  {
    forall r, x | r in recs && x in stranded
      ensures r.name != x.name
    {
      var i :| 0 <= i < |recs| && recs[i] == r;
      var j :| 0 <= j < |stranded| && stranded[j] == x;
      assert (recs + stranded)[i] == r && (recs + stranded)[|recs| + j] == x;
    }
  }

  lemma RestIs(recs: seq<Rec>, stranded: seq<Rec>, name: seq<Char>)
    requires Small(recs + stranded) && Distinct(recs + stranded)
    ensures Small(Rest(recs, stranded, name)) && name !in AsMap(Rest(recs, stranded, name))
    ensures forall r | r in Rest(recs, stranded, name) :: r.name != name
  {
    hide AsMap;
    WithoutIs(recs, name);
    StrandedName(recs, stranded);
    AsMapNames(recs, name);
    AsMapNames(Rest(recs, stranded, name), name);
    assert forall r | r in recs || r in stranded :: r in recs + stranded;
  }

  lemma RestAbsent(recs: seq<Rec>, stranded: seq<Rec>, name: seq<Char>)
    requires name !in AsMap(recs)
    ensures Rest(recs, stranded, name) == recs
  {
  }

  /** Deleting removes the name from the map, and adds that of the record not seen before. */
  lemma RestMap(recs: seq<Rec>, stranded: seq<Rec>, name: seq<Char>)
    requires |stranded| <= 1 && Distinct(recs) && Distinct(recs + stranded)
    ensures name !in AsMap(recs) || stranded == [] <==>
            AsMap(Rest(recs, stranded, name)) == AsMap(recs) - {name}
    ensures name in AsMap(recs) && stranded != [] ==>
              AsMap(Rest(recs, stranded, name)) == (AsMap(recs) - {name})[stranded[0].name := stranded[0].value]
  {
    hide AsMap, Without;
    AsMapWithout(recs, name);
    if name !in AsMap(recs) {
      assert AsMap(recs) - {name} == AsMap(recs);
    } else if stranded == [] {
      assert Without(recs, name) + [] == Without(recs, name);
    } else {
      var x := stranded[0];
      assert stranded == [x];
      StrandedName(recs, stranded);
      WithoutIs(recs, name);
      AsMapNames(recs, x.name);
      AsMapAppend(Without(recs, name), x);
      assert x.name in AsMap(Rest(recs, stranded, name));
    }
  }

  /** What the records left take: as much as all but the named one, unless the one not seen comes back. */
  lemma RestLength(mem: seq<Char>, xbSize: nat, recs: seq<Rec>, stranded: seq<Rec>, name: seq<Char>, i: nat)
    requires Clean(mem, xbSize, recs, stranded) && Small(recs) && i < |recs| && recs[i].name == name
        && name in AsMap(recs)
    ensures Small(Rest(recs, stranded, name)) && Small(Without(recs, name))
    ensures stranded == [] ==> |EncAll(Rest(recs, stranded, name))| == |EncAll(Without(recs, name))|
    ensures stranded != [] ==> |EncAll(Rest(recs, stranded, name))| == xbSize - RecLen(recs[i])
  {
    hide Enc, EncAll, AsMap, Clean, Small, Distinct, Without;
    CleanNames(mem, xbSize, recs, stranded);
    SmallWithout(recs, name);
    RestIs(recs, stranded, name);
    WithoutIs(recs, name);
    WithoutAt(recs, name, i);
    if stranded == [] {
      assert Without(recs, name) + [] == Without(recs, name);
    } else {
      FullLength(mem, xbSize, recs, stranded);
      LengthWithout(recs + stranded, i);
      AllWithout(recs, stranded, i);
    }
  }

  lemma AllWithout(recs: seq<Rec>, stranded: seq<Rec>, i: nat)
    requires i < |recs|
    ensures var all := recs + stranded; all[i] == recs[i] && all[..i] + all[i + 1..] == recs[..i] + recs[i + 1..] + stranded
  {
  }

  lemma SmallWithout(recs: seq<Rec>, name: seq<Char>)
    requires Small(recs)
    ensures Small(Without(recs, name))
  {
    WithoutIs(recs, name);
  }

  lemma LengthWithout(all: seq<Rec>, i: nat)
    requires Small(all) && Distinct(all) && i < |all|
    ensures Small(all[..i] + all[i + 1..]) && |EncAll(all[..i] + all[i + 1..])| == |EncAll(all)| - RecLen(all[i])
  {
    hide Enc, EncAll, Small, Distinct;
    EncParts(all, i);
  }

  lemma FullLength(mem: seq<Char>, xbSize: nat, recs: seq<Rec>, stranded: seq<Rec>)
    requires Clean(mem, xbSize, recs, stranded) && stranded != []
    ensures Small(recs + stranded) && |EncAll(recs + stranded)| == xbSize
  {
  }

  lemma ZerosAt(n: nat)
    ensures |Zeros(n)| == n && forall k | 0 <= k < n :: Zeros(n)[k] == 0
  {
  }

  lemma OverwrittenAt(s: seq<Char>, pos: nat, d: seq<Char>, k: int)
    requires pos + |d| <= |s| && 0 <= k < |s|
    ensures Overwritten(s, pos, d)[k] == if pos <= k < pos + |d| then d[k - pos] else s[k]
  {
  }

  lemma EncAt(r: Rec, k: int)
    requires RecLen(r) < 0x8000_0000
    ensures |IntBytes(RecLen(r))| == SIZEOF_INT && |Enc(r)| == RecLen(r)
    ensures 0 <= k < |Enc(r)| ==>
              Enc(r)[k] == if k < SIZEOF_INT then IntBytes(RecLen(r))[k] else if k < SIZEOF_INT + |r.name|
                  then r.name[k - SIZEOF_INT]
                           else if k == SIZEOF_INT + |r.name| then 0 else r.value[k - SIZEOF_INT - |r.name| - 1]
  {
  }

  lemma AppendBytes(s: seq<Char>, start: nat, r: Rec, s': seq<Char>)
    requires RecLen(r) < 0x8000_0000 && start + RecLen(r) + SIZEOF_INT <= |s|
    requires |Zeros(RecLen(r) - |r.name|)| == RecLen(r) - |r.name|
    requires s' == Overwritten(Overwritten(Overwritten(s, start, IntBytes(RecLen(r))),
                                           start + SIZEOF_INT, r.name + Zeros(RecLen(r) - |r.name|)),
                               start + SIZEOF_INT + |r.name| + 1, r.value)
    ensures s' == Overwritten(s, start, Enc(r) + Zeros(SIZEOF_INT))
  {
    hide IntBytes, Overwritten, Zeros, Enc;
    var n, z := RecLen(r), Zeros(RecLen(r) - |r.name|);
    ZerosAt(|z|);
    ZerosAt(SIZEOF_INT);
    var s1 := Overwritten(s, start, IntBytes(n));
    var s2 := Overwritten(s1, start + SIZEOF_INT, r.name + z);
    var want := Overwritten(s, start, Enc(r) + Zeros(SIZEOF_INT));
    forall k | 0 <= k < |s|
      ensures s'[k] == want[k]
    {
      OverwrittenAt(s, start, IntBytes(n), k);
      OverwrittenAt(s1, start + SIZEOF_INT, r.name + z, k);
      OverwrittenAt(s2, start + SIZEOF_INT + |r.name| + 1, r.value, k);
      OverwrittenAt(s, start, Enc(r) + Zeros(SIZEOF_INT), k);
      EncAt(r, k - start);
    }
  }

  lemma AppendedBehind(mem: seq<Char>, xbSize: nat, used: nat, r: Rec, mem': seq<Char>)
    requires RecLen(r) < 0x8000_0000 && Appended(mem, xbSize, used, r, mem')
    ensures |mem'| == |mem| && |Beyond(r, xbSize - used)| <= |mem| - xbSize
    ensures mem'[xbSize..] == Spilt(mem[xbSize..], Beyond(r, xbSize - used))
  {
    hide Enc, Zeros;
    ZerosAt(SIZEOF_INT);
    var d := Enc(r) + Zeros(SIZEOF_INT);
    var want := Spilt(mem[xbSize..], Beyond(r, xbSize - used));
    forall j | 0 <= j < |mem| - xbSize
      ensures mem'[xbSize..][j] == want[j]
    {
      OverwrittenAt(mem, used, d, xbSize + j);
    }
  }

  /** What of a record and its padding does not fit in so much room. */
  function Beyond(r: Rec, room: nat): seq<Char>
    requires RecLen(r) < 0x8000_0000
  {
    if RecLen(r) + SIZEOF_INT <= room then [] else (Enc(r) + Zeros(SIZEOF_INT))[room..]
  }

  /** The bytes behind the buffer once these are written over the first of them. */
  function Spilt(behind: seq<Char>, d: seq<Char>): (r: seq<Char>)
    requires |d| <= |behind|
    ensures |r| == |behind|
  {
    d + behind[|d|..]
  }

  lemma SpiltSame(behind: seq<Char>, d: seq<Char>)
    requires |d| <= |behind|
    ensures Spilt(behind, d) == behind <==> d <= behind
  {
    assert behind == behind[..|d|] + behind[|d|..];
    assert Spilt(behind, d)[..|d|] == d;
  }

  /** Of a record that fits, only the padding can go beyond: zeros. */
  lemma PaddingBeyond(r: Rec, room: nat)
    requires RecLen(r) < 0x8000_0000 && RecLen(r) <= room
    ensures Beyond(r, room) == Zeros(if RecLen(r) + SIZEOF_INT <= room then 0 else RecLen(r) + SIZEOF_INT - room)
  {
    ZerosAt(SIZEOF_INT);
  }

  /** A record that leaves one byte free is stored, and three bytes of what lies behind the buffer are lost. */
  method OverrunHappens() returns (code: Code, before: seq<Char>, after: seq<Char>)
    ensures code == Done(0) && before == [7, 7, 7, 7] && after == [0, 0, 0, 7]
  {
    var s := new Store(10);
    s.mem[10], s.mem[11], s.mem[12], s.mem[13] := 7, 7, 7, 7;
    before := s.mem[..][10..14];
    ghost var behind := s.mem[..][10..];
    code := s.Set([65], [1, 2, 3], false, false);
    PaddingBeyond(Rec([65], [1, 2, 3]), 10);
    assert s.mem[..][10..] == Zeros(3) + behind[3..];
    after := s.mem[..][10..14];
    assert forall k | 0 <= k < 4 :: after[k] == s.mem[..][10..][k];
  }

  /** A store of twenty bytes filled by two names. */
  method Filled() returns (s: Store)
    ensures fresh(s) && fresh(s.mem) && s.Valid() && s.xbSize == 20
    ensures s.recs == [Rec([65], [1, 2])] && s.stranded == [Rec([66], [1, 2, 3, 4, 5, 6])]
  {
    hide Clean, Holds, Enc, Store.Valid, Store.Readable;
    s := new Store(20);
    var code := s.Set([65], [1, 2], false, false);
    SizeOfOne(Rec([65], [1, 2]));
    assert Without([Rec([65], [1, 2])], [66]) == [Rec([65], [1, 2])];
    code := s.Set([66], [1, 2, 3, 4, 5, 6], false, false);
  }

  lemma SizeOfOne(r: Rec)
    requires RecLen(r) < 0x8000_0000 && CString(r.name)
    ensures Small([r]) && |EncAll([r])| == RecLen(r) && AsMap([r]) == map[r.name := r.value]
        && Without([r], r.name) == []
  {
    EncOne(r);
    assert [r][1..] == [];
  }

  /** The second of them is not found until the first is deleted. */
  method LostNameComesBack() returns (missing: Code, deleted: Code, found: Code, value: seq<Char>)
    ensures missing == ENODATA && deleted == Done(0) && found == Done(6) && value == [1, 2, 3, 4, 5, 6]
  {
    hide Clean, Holds, EncAll, Enc, Store.Valid, Store.Readable;
    var s := Filled();
    var buf := new Char[6];
    s.ValidIsReadable();
    SizeOfOne(Rec([65], [1, 2]));
    missing := s.Get([66], buf);
    deleted := s.Del([65]);
    s.ValidIsReadable();
    found := s.Get([66], buf);
    value := buf[..];
  }

  /** The first one gets a longer value: the new record starts at byte twelve and is sixteen bytes long, so
      that eight bytes of it, and its padding, are written behind the buffer. */
  method ReplacementOverruns() returns (code: Code, after: seq<Char>)
    ensures code == Done(0) && after == [3, 4, 5, 6, 7, 8, 9, 10, 0, 0, 0, 0]
  {
    hide Clean, Holds, EncAll, Enc, Beyond, Spilt, Store.Valid, Store.Readable;
    var s := Filled();
    s.ValidIsReadable();
    ghost var r, x := Rec([65], [1, 2, 3, 4, 5, 6, 7, 8, 9, 10]), Rec([66], [1, 2, 3, 4, 5, 6]);
    SizeOfOne(Rec([65], [1, 2]));
    SizeOfOne(x);
    assert Rest(s.recs, s.stranded, [65]) == [] + [x] == [x];
    EmptySize();
    ghost var behind := s.mem[..][20..];
    code := s.Set([65], [1, 2, 3, 4, 5, 6, 7, 8, 9, 10], false, false);
    LastBytes(r, behind);
    after := s.mem[..][20..32];
    assert after == s.mem[..][20..][..12];
  }

  lemma LastBytes(r: Rec, behind: seq<Char>)
    requires r == Rec([65], [1, 2, 3, 4, 5, 6, 7, 8, 9, 10]) && |behind| >= 12
    ensures |Beyond(r, 8)| == 12 && Spilt(behind, Beyond(r, 8))[..12] == [3, 4, 5, 6, 7, 8, 9, 10, 0, 0, 0, 0]
  {
    assert Beyond(r, 8) == [3, 4, 5, 6, 7, 8, 9, 10] + Zeros(SIZEOF_INT);
  }

  lemma EmptySize()
    ensures Small([]) && EncAll([]) == []
  {
  }

  lemma MovedIs(s: seq<Char>, dst: nat, src: nat, n: nat, r: seq<Char>)
    requires dst <= src && src + n <= |s| && |r| == |s|
    requires forall j | 0 <= j < |s| :: r[j] == AfterMove(s, dst, src, n, j)
    ensures r == Moved(s, dst, src, n)
  {
    var m := Moved(s, dst, src, n);
    forall j | 0 <= j < |s|
      ensures r[j] == m[j]
    {
    }
  }

  lemma OverwrittenIs(s: seq<Char>, pos: nat, bytes: seq<Char>, r: seq<Char>)
    requires pos + |bytes| <= |s| && |r| == |s|
    requires forall j | 0 <= j < |s| :: r[j] == if pos <= j < pos + |bytes| then bytes[j - pos] else s[j]
    ensures r == Overwritten(s, pos, bytes)
  {
  }

  lemma DelBytes(mem: seq<Char>, xbSize: nat, pos: nat, size: nat, mem': seq<Char>)
    requires |mem| == Memory(xbSize) && pos + size <= xbSize && |Zeros(size)| == size
    requires var moved := Moved(mem, pos, pos + size, xbSize - (pos + size));
             mem' == Overwritten(moved, xbSize - size, Zeros(size))
    ensures mem' == mem[..pos] + mem[pos + size..xbSize] + Zeros(size) + mem[xbSize..]
    ensures mem'[xbSize..] == mem[xbSize..]
  {
    var moved := Moved(mem, pos, pos + size, xbSize - (pos + size));
    assert moved[..xbSize - size] == mem[..pos] + mem[pos + size..xbSize];
    assert moved[xbSize..] == mem[xbSize..];
  }

  /** A walk sees the records and not the one behind them. */
  lemma CleanHolds(mem: seq<Char>, xbSize: nat, recs: seq<Rec>, stranded: seq<Rec>)
    requires Clean(mem, xbSize, recs, stranded)
    ensures Holds(mem, xbSize, recs)
  {
    hide Enc, EncAll, Small, Distinct, IntBytes;
    CleanNames(mem, xbSize, recs, stranded);
    assert |stranded| == 1 ==> stranded == [stranded[0]];
    assert stranded == [] ==> recs + stranded == recs;
    var used := |EncAll(recs)|;
    if stranded == [] {
      if used + SIZEOF_INT < xbSize {
        assert mem[used] == 0 && mem[used + 1] == 0 && mem[used + 2] == 0 && mem[used + 3] == 0;
        assert IntAt(mem, used) == 0;
      }
    } else {
      StrandedLast(mem, xbSize, recs, stranded[0]);
    }
  }

  lemma StartBehind(s: seq<Char>, t: seq<Char>)
    requires |t| >= 4
    ensures (s + t)[|s|..|s| + 4] == t[0..4]
  {
  }

  lemma PartOfStart(mem: seq<Char>, xb: nat, at: nat)
    requires at + 4 <= xb <= |mem|
    ensures mem[at..at + 4] == mem[..xb][at..at + 4]
  {
  }

  lemma StrandedLast(mem: seq<Char>, xbSize: nat, recs: seq<Rec>, x: Rec)
    requires Small(recs) && Small(recs + [x]) && xbSize <= |mem|
    requires |EncAll(recs + [x])| == xbSize && mem[..xbSize] == EncAll(recs + [x])
    ensures |EncAll(recs)| + RecLen(x) == xbSize && mem[..|EncAll(recs)|] == EncAll(recs)
    ensures IntAt(mem, |EncAll(recs)|) == RecLen(x)
  {
    hide Enc, EncAll, IntBytes;
    assert x in recs + [x];
    assert Small([x]);
    EncAllAdds(recs, [x]);
    EncOne(x);
    EncStart(x);
    var used := |EncAll(recs)|;
    assert mem[..used] == mem[..xbSize][..used];
    StartBehind(EncAll(recs), Enc(x));
    PartOfStart(mem, xbSize, used);
    IntRoundTrip(mem, used, RecLen(x));
  }

  lemma NameBytes(a: array<Char>, at: nat, held: seq<Char>)
    requires CString(held) && at + |held| <= a.Length && a[at..at + |held|] == held
    ensures forall k | at <= k < at + |held| :: a[k] == held[k - at] && a[k] != 0
  {
    NoNul(held);
    forall k | at <= k < at + |held|
      ensures a[k] == held[k - at]
    {
      assert a[at..at + |held|][k - at] == a[k];
    }
  }

  lemma NoNul(s: seq<Char>)
    requires CString(s)
    ensures forall k | 0 <= k < |s| :: s[k] != 0
  {
  }

  lemma Bounds(mem: seq<Char>, xbSize: nat, recs: seq<Rec>)
    requires Holds(mem, xbSize, recs)
    ensures SIZEOF_INT < xbSize < 0x4000_0000 && |mem| == Memory(xbSize)
    ensures Small(recs) && Distinct(recs) && |EncAll(recs)| < xbSize
  {
  }
}
