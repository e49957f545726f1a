/** Heads followed by tails: the layout of section "Formal Specification of the Encoding" of the
    Solidity Contract ABI Specification, independent of what the arguments are. A head is the argument
    itself or the offset of its tail. */
module Layout {
  import opened Hex

  const WORD := 32

  function Word(n: nat): (w: seq<byte>)
    ensures |w| == WORD
  {
    BigEndian(n, WORD)
  }

  /** n can be read back from its word; see InWordIff. */
  predicate InWord(n: nat) {
    FromBigEndian(Word(n)) == n
  }

  /** One argument: in place, or by an offset to its content. */
  datatype Slot = Static(word: seq<byte>) | Dynamic(content: seq<byte>) {
    predicate Valid() {
      match this
      case Static(w) => |w| == WORD
      case Dynamic(c) => |c| % WORD == 0
    }

    function Head(off: nat): (w: seq<byte>)
      requires Valid()
      ensures |w| == WORD
    {
      if Static? then word else Word(off)
    }

    function Tail(): seq<byte> {
      if Static? then [] else content
    }
  }

  predicate AllValid(ss: seq<Slot>) {
    forall i :: 0 <= i < |ss| ==> ss[i].Valid()
  }

  function Heads(ss: seq<Slot>, off: nat): (r: seq<byte>)
    requires AllValid(ss)
    ensures |r| == WORD * |ss|
  {
    if ss == [] then [] else ss[0].Head(off) + Heads(ss[1..], off + |ss[0].Tail()|)
  }

  function Tails(ss: seq<Slot>): seq<byte> {
    if ss == [] then [] else ss[0].Tail() + Tails(ss[1..])
  }

  function Lay(ss: seq<Slot>): seq<byte>
    requires AllValid(ss)
  {
    Heads(ss, WORD * |ss|) + Tails(ss)
  }

  /** The bytes `piece` stand in the data from `off` on. */
  predicate Stands(data: seq<byte>, off: nat, piece: seq<byte>) {
    off + |piece| <= |data| && data[off..off + |piece|] == piece
  }

  lemma SliceOfSlice<T>(s: seq<T>, lo: nat, hi: nat, i: nat, j: nat)
    requires lo <= hi <= |s| && i <= j <= hi - lo
    ensures s[lo..hi][i..j] == s[lo + i..lo + j]
  {
    assert |s[lo..hi][i..j]| == |s[lo + i..lo + j]|;
    assert forall k :: 0 <= k < j - i ==> s[lo..hi][i..j][k] == s[lo + i..lo + j][k];
  }

  /** A first piece and the remaining pieces stand where their concatenation stands. */
  lemma StandsSplit(data: seq<byte>, off: nat, first: seq<byte>, rest: seq<byte>)
    requires Stands(data, off, first + rest)
    ensures Stands(data, off, first) && Stands(data, off + |first|, rest)
  {
    var t := first + rest;
    SliceOfSlice(data, off, off + |t|, 0, |first|);
    SliceOfSlice(data, off, off + |t|, |first|, |t|);
    assert t[..|first|] == first && t[|first|..] == rest;
  }

  /** Where the tail of slot i starts when the tails start at `off`. */
  function TailOffset(ss: seq<Slot>, off: nat, i: nat): (o: nat)
    requires i < |ss|
    ensures off <= o && o + |ss[i].Tail()| <= off + |Tails(ss)|
  {
    if i == 0 then off else TailOffset(ss[1..], off + |ss[0].Tail()|, i - 1)
  }

  lemma TailOffsetNext(ss: seq<Slot>, off: nat, i: nat)
    requires 0 < i < |ss|
    ensures ss[1..][i - 1] == ss[i]
    ensures TailOffset(ss, off, i) == TailOffset(ss[1..], off + |ss[0].Tail()|, i - 1)
  {}

  lemma {:induction false} HeadsSplit(data: seq<byte>, at: nat, ss: seq<Slot>, off: nat)
    requires AllValid(ss) && ss != [] && Stands(data, at, Heads(ss, off))
    ensures Stands(data, at, ss[0].Head(off))
    ensures AllValid(ss[1..]) && Stands(data, at + WORD, Heads(ss[1..], off + |ss[0].Tail()|))
  {
    StandsSplit(data, at, ss[0].Head(off), Heads(ss[1..], off + |ss[0].Tail()|));
  }

  lemma {:induction false} HeadAt(data: seq<byte>, at: nat, ss: seq<Slot>, off: nat, i: nat, pos: nat, o: nat)
    requires AllValid(ss) && i < |ss| && pos == at + WORD * i && o == TailOffset(ss, off, i)
    requires Stands(data, at, Heads(ss, off))
    ensures Stands(data, pos, ss[i].Head(o))
    decreases i
  {
    HeadsSplit(data, at, ss, off);
    if i > 0 {
      TailOffsetNext(ss, off, i);
      HeadAt(data, at + WORD, ss[1..], off + |ss[0].Tail()|, i - 1, pos, o);
    }
  }

  lemma {:induction false} TailAt(data: seq<byte>, ss: seq<Slot>, off: nat, i: nat, o: nat)
    requires i < |ss| && o == TailOffset(ss, off, i)
    requires Stands(data, off, Tails(ss))
    ensures Stands(data, o, ss[i].Tail())
    decreases i
  {
    StandsSplit(data, off, ss[0].Tail(), Tails(ss[1..]));
    if i > 0 {
      TailOffsetNext(ss, off, i);
      TailAt(data, ss[1..], off + |ss[0].Tail()|, i - 1, o);
    }
  }

  lemma {:induction false} TailOffsetAligned(ss: seq<Slot>, off: nat, i: nat)
    requires AllValid(ss) && i < |ss| && off % WORD == 0
    ensures TailOffset(ss, off, i) % WORD == 0
    decreases i
  {
    if i > 0 {
      assert ss[0].Valid();
      TailOffsetAligned(ss[1..], off + |ss[0].Tail()|, i - 1);
    }
  }

  lemma {:induction false} LayStands(ss: seq<Slot>)
    requires AllValid(ss)
    ensures Stands(Lay(ss), 0, Heads(ss, WORD * |ss|))
    ensures Stands(Lay(ss), WORD * |ss|, Tails(ss))
  {
    assert Lay(ss)[0..|Lay(ss)|] == Lay(ss);
    StandsSplit(Lay(ss), 0, Heads(ss, WORD * |ss|), Tails(ss));
  }

  /** Slot i of a laid-out argument list: its head word stands at position 32 * i and its content
      stands at the aligned offset that this head word holds, behind all heads. */
  lemma SlotStands(ss: seq<Slot>, i: nat) returns (o: nat)
    requires AllValid(ss) && i < |ss|
    ensures Stands(Lay(ss), WORD * i, ss[i].Head(o)) && Stands(Lay(ss), o, ss[i].Tail())
    ensures o % WORD == 0 && WORD * |ss| <= o <= |Lay(ss)|
  {
    var base := WORD * |ss|;
    o := TailOffset(ss, base, i);
    assert o % WORD == 0 by { TailOffsetAligned(ss, base, i); }
    LayStands(ss);
    assert Stands(Lay(ss), WORD * i, ss[i].Head(o)) by { HeadAt(Lay(ss), 0, ss, base, i, WORD * i, o); }
    assert Stands(Lay(ss), o, ss[i].Tail()) by { TailAt(Lay(ss), ss, base, i, o); }
  }

  lemma {:induction false} FromBigEndianBound(bs: seq<byte>)
    ensures FromBigEndian(bs) < Pow256(|bs|)
  {
    if bs != [] { FromBigEndianBound(bs[..|bs| - 1]); }
  }

  /** The numbers a word can hold are those below 2^256. */
  lemma InWordIff(n: nat)
    ensures InWord(n) <==> n < Pow256(WORD)
  {
    if n < Pow256(WORD) { BigEndianRoundTrip(n, WORD); }
    FromBigEndianBound(Word(n));
  }
}

