/** The argument encoding of the Solidity Contract ABI Specification, and a strict decoder. */
module Abi {
  import opened Wrappers
  import opened Hex
  import opened Layout

  // The rules of section "Formal Specification of the Encoding", for the types that the platform's calldata
  // uses. This is the reference the hand-written encoders of module Calldata are compared with.

  datatype Type = TAddress | TUint256 | TBool | TBytes32 | TBytes

  datatype Value =
    | VAddress(address: seq<byte>)
    | VUint256(n: nat)
    | VBool(b: bool)
    | VBytes32(word: seq<byte>)
    | VBytes(bytes: seq<byte>)

  function TypeOf(v: Value): Type {
    match v
    case VAddress(_) => TAddress
    case VUint256(_) => TUint256
    case VBool(_) => TBool
    case VBytes32(_) => TBytes32
    case VBytes(_) => TBytes
  }

  function TypesOf(vs: seq<Value>): (ts: seq<Type>)
    ensures |ts| == |vs|
  {
    if vs == [] then [] else [TypeOf(vs[0])] + TypesOf(vs[1..])
  }

  /** The values each type admits; the length of a byte string must fit in a word. */
  predicate Admissible(v: Value) {
    match v
    case VAddress(a) => |a| == 20
    case VUint256(n) => InWord(n)
    case VBool(_) => true
    case VBytes32(w) => |w| == WORD
    case VBytes(bs) => InWord(|bs|)
  }

  predicate AllAdmissible(vs: seq<Value>) {
    forall i :: 0 <= i < |vs| ==> Admissible(vs[i])
  }

  // ---- Encoding ----

  /** Bytes needed after n bytes to reach the next multiple of 32. */
  function PadLength(n: nat): (p: nat)
    ensures p < WORD && (n + p) % WORD == 0
  {
    (WORD - n % WORD) % WORD
  }

  function PadRight(bs: seq<byte>): (r: seq<byte>)
    ensures |r| % WORD == 0
  {
    bs + Zeros(PadLength(|bs|))
  }

  function SlotOf(v: Value): (s: Slot)
    requires Admissible(v)
    ensures s.Valid()
  {
    match v
    case VAddress(a) => Static(Zeros(12) + a)
    case VUint256(n) => Static(Word(n))
    case VBool(b) => Static(Word(if b then 1 else 0))
    case VBytes32(w) => Static(w)
    case VBytes(bs) => Dynamic(Word(|bs|) + PadRight(bs))
  }

  function Slots(vs: seq<Value>): (ss: seq<Slot>)
    requires AllAdmissible(vs)
    ensures |ss| == |vs| && AllValid(ss)
    ensures forall i :: 0 <= i < |vs| ==> ss[i] == SlotOf(vs[i])
  {
    seq(|vs|, i requires 0 <= i < |vs| => SlotOf(vs[i]))
  }

  function Encode(vs: seq<Value>): seq<byte>
    requires AllAdmissible(vs)
  {
    Lay(Slots(vs))
  }

  /** Every value is admissible and every offset fits in one word. */
  predicate Fits(vs: seq<Value>) {
    AllAdmissible(vs) && |Encode(vs)| < Pow256(WORD)
  }

  // ---- Decoding ----

  function Slice(data: seq<byte>, at: nat, len: nat): Option<seq<byte>> {
    if at + len <= |data| then Some(data[at..at + len]) else None
  }

  /** The byte string whose tail starts at `off`; its padding must be present and zero. */
  function DecodeBytes(data: seq<byte>, off: nat): Option<Value> {
    match Slice(data, off, WORD)
    case None => None
    case Some(w) =>
      var len := FromBigEndian(w);
      var pad := PadLength(len);
      match Slice(data, off + WORD, len + pad)
      case None => None
      case Some(body) => if body[len..] == Zeros(pad) then Some(VBytes(body[..len])) else None
  }

  /** The argument of type t with head word w. */
  function DecodeHead(t: Type, w: seq<byte>, data: seq<byte>): Option<Value>
    requires |w| == WORD
  {
    match t
    case TAddress => if w[..12] == Zeros(12) then Some(VAddress(w[12..])) else None
    case TUint256 => Some(VUint256(FromBigEndian(w)))
    case TBool =>
      var n := FromBigEndian(w);
      if n == 0 then Some(VBool(false)) else if n == 1 then Some(VBool(true)) else None
    case TBytes32 => Some(VBytes32(w))
    case TBytes => DecodeBytes(data, FromBigEndian(w))
  }

  /** The argument of type t whose head word starts at `at`. */
  function DecodeOne(t: Type, data: seq<byte>, at: nat): Option<Value> {
    match Slice(data, at, WORD)
    case None => None
    case Some(w) => DecodeHead(t, w, data)
  }

  function DecodeFrom(ts: seq<Type>, data: seq<byte>, at: nat): Option<seq<Value>> {
    if ts == [] then Some([]) else
    match DecodeOne(ts[0], data, at)
    case None => None
    case Some(v) =>
      match DecodeFrom(ts[1..], data, at + WORD)
      case None => None
      case Some(vs) => Some([v] + vs)
  }

  function Decode(ts: seq<Type>, data: seq<byte>): Option<seq<Value>> {
    DecodeFrom(ts, data, 0)
  }

  // ---- Round trip ----

  lemma DecodeBytesRecovers(bs: seq<byte>, data: seq<byte>, off: nat)
    requires InWord(|bs|) && Stands(data, off, Word(|bs|) + PadRight(bs))
    ensures DecodeBytes(data, off) == Some(VBytes(bs))
  {
    StandsSplit(data, off, Word(|bs|), PadRight(bs));
    assert PadRight(bs)[|bs|..] == Zeros(PadLength(|bs|)) && PadRight(bs)[..|bs|] == bs;
  }

  lemma SmallInWord(n: nat)
    requires n < 256
    ensures InWord(n)
  {
    BigEndianRoundTrip(n, WORD);
  }

  lemma DecodeStaticRecovers(v: Value, data: seq<byte>)
    requires Admissible(v) && !v.VBytes?
    ensures DecodeHead(TypeOf(v), SlotOf(v).word, data) == Some(v)
  {
    match v
    case VAddress(a) =>
      assert SlotOf(v).word[..12] == Zeros(12) && SlotOf(v).word[12..] == a;
    case VUint256(n) =>
    case VBool(b) => SmallInWord(if b then 1 else 0);
    case VBytes32(w) =>
  }

  lemma SliceStands(data: seq<byte>, at: nat, w: seq<byte>)
    requires |w| == WORD && Stands(data, at, w)
    ensures Slice(data, at, WORD) == Some(w)
  {}

  lemma BytesHeadRecovers(bs: seq<byte>, data: seq<byte>, o: nat)
    requires InWord(|bs|) && o < Pow256(WORD) && Stands(data, o, Word(|bs|) + PadRight(bs))
    ensures DecodeHead(TBytes, Word(o), data) == Some(VBytes(bs))
  {
    assert DecodeBytes(data, o) == Some(VBytes(bs)) by { DecodeBytesRecovers(bs, data, o); }
    assert FromBigEndian(Word(o)) == o by { InWordIff(o); }
  }

  /** From its head word, and its tail where that points, a value is read back. */
  lemma HeadRecovers(v: Value, data: seq<byte>, o: nat)
    requires Admissible(v)
    requires o < Pow256(WORD) && Stands(data, o, SlotOf(v).Tail())
    ensures DecodeHead(TypeOf(v), SlotOf(v).Head(o), data) == Some(v)
  {
    if v.VBytes? {
      BytesHeadRecovers(v.bytes, data, o);
    } else {
      DecodeStaticRecovers(v, data);
    }
  }

  /** Argument i of an encoding decodes to value i. */
  lemma ArgumentRecovers(vs: seq<Value>, i: nat)
    requires Fits(vs) && i < |vs|
    ensures DecodeOne(TypeOf(vs[i]), Encode(vs), WORD * i) == Some(vs[i])
  {
    var data := Encode(vs);
    var o := SlotStands(Slots(vs), i);
    var v, slot := vs[i], SlotOf(vs[i]);
    assert Slots(vs)[i] == slot;
    assert Slice(data, WORD * i, WORD) == Some(slot.Head(o)) by { SliceStands(data, WORD * i, slot.Head(o)); }
    assert DecodeHead(TypeOf(v), slot.Head(o), data) == Some(v) by { HeadRecovers(v, data, o); }
  }

  /** Argument i, with its head word at at + 32 * i, decodes to value i, for every i. */
  predicate EachRecovers(vs: seq<Value>, data: seq<byte>, at: nat) {
    forall i :: 0 <= i < |vs| ==> DecodeOne(TypeOf(vs[i]), data, at + WORD * i) == Some(vs[i])
  }

  lemma RestRecovers(vs: seq<Value>, data: seq<byte>, at: nat)
    requires vs != [] && EachRecovers(vs, data, at)
    ensures DecodeOne(TypeOf(vs[0]), data, at) == Some(vs[0]) && EachRecovers(vs[1..], data, at + WORD)
  {
    assert DecodeOne(TypeOf(vs[0]), data, at + WORD * 0) == Some(vs[0]);
    forall i | 0 <= i < |vs[1..]|
      ensures DecodeOne(TypeOf(vs[1..][i]), data, at + WORD + WORD * i) == Some(vs[1..][i])
    {
      assert at + WORD * (i + 1) == at + WORD + WORD * i;
    }
  }

  lemma {:induction false} DecodeFromRecovers(vs: seq<Value>, data: seq<byte>, at: nat)
    requires EachRecovers(vs, data, at)
    ensures DecodeFrom(TypesOf(vs), data, at) == Some(vs)
    decreases |vs|
  {
    if vs != [] {
      RestRecovers(vs, data, at);
      DecodeFromRecovers(vs[1..], data, at + WORD);
      assert TypesOf(vs)[1..] == TypesOf(vs[1..]);
      assert vs == [vs[0]] + vs[1..];
    }
  }

  /** The decoder recovers exactly the encoded arguments. */
  lemma {:induction false} RoundTrip(vs: seq<Value>)
    requires Fits(vs)
    ensures Decode(TypesOf(vs), Encode(vs)) == Some(vs)
  {
    forall i | 0 <= i < |vs|
      ensures DecodeOne(TypeOf(vs[i]), Encode(vs), 0 + WORD * i) == Some(vs[i])
    {
      ArgumentRecovers(vs, i);
    }
    assert EachRecovers(vs, Encode(vs), 0);
    DecodeFromRecovers(vs, Encode(vs), 0);
  }

  /** Two argument lists of the same types never share an encoding. */
  lemma {:induction false} EncodeInjective(vs: seq<Value>, ws: seq<Value>)
    requires Fits(vs) && Fits(ws) && TypesOf(vs) == TypesOf(ws)
    requires Encode(vs) == Encode(ws)
    ensures vs == ws
  {
    RoundTrip(vs);
    RoundTrip(ws);
  }

  /** In every encoding, the head word of each byte-string argument is the offset of that argument's
      own length word and padded content. */
  lemma OffsetPointsAtOwnTail(vs: seq<Value>, i: nat)
    requires Fits(vs) && i < |vs| && vs[i].VBytes?
    ensures WORD * i + WORD <= |Encode(vs)|
    ensures
      var off := FromBigEndian(Encode(vs)[WORD * i..WORD * i + WORD]);
      off % WORD == 0 && WORD * |vs| <= off && Stands(Encode(vs), off, SlotOf(vs[i]).content)
  {
    var o := SlotStands(Slots(vs), i);
    InWordIff(o);
  }

  // ---- The decoder is strict ----

  lemma NumberInWord(w: seq<byte>)
    requires |w| == WORD
    ensures Word(FromBigEndian(w)) == w && InWord(FromBigEndian(w))
  {
    BigEndianOfNumber(w);
  }

  lemma BytesDecoded(data: seq<byte>, off: nat, v: Value)
    requires DecodeBytes(data, off) == Some(v)
    ensures TypeOf(v) == TBytes && Admissible(v) && Stands(data, off, SlotOf(v).content)
  {
    var w := data[off..off + WORD];
    var len := FromBigEndian(w);
    NumberInWord(w);
    var body := data[off + WORD..off + WORD + len + PadLength(len)];
    assert v == VBytes(body[..len]);
    assert body == body[..len] + body[len..] == PadRight(body[..len]);
    assert data[off..off + WORD + |body|] == w + body;
  }

  lemma HeadDecoded(t: Type, w: seq<byte>, data: seq<byte>, v: Value)
    requires |w| == WORD && DecodeHead(t, w, data) == Some(v)
    ensures TypeOf(v) == t && Admissible(v)
    ensures if t == TBytes then Stands(data, FromBigEndian(w), SlotOf(v).content) else SlotOf(v) == Static(w)
  {
    NumberInWord(w);
    if t == TBytes {
      BytesDecoded(data, FromBigEndian(w), v);
    } else if t == TAddress {
      assert w == w[..12] + w[12..];
    }
  }

  /** The word that argument i of a list was read from, which begins at `at`. */
  predicate ReadFrom(v: Value, data: seq<byte>, at: nat) {
    && at + WORD <= |data| && Admissible(v)
    && match SlotOf(v)
       case Static(w) => Stands(data, at, w)
       case Dynamic(content) => Stands(data, FromBigEndian(data[at..at + WORD]), content)
  }

  lemma FirstDecoded(ts: seq<Type>, data: seq<byte>, at: nat, vs: seq<Value>)
    requires ts != [] && DecodeFrom(ts, data, at) == Some(vs)
    ensures vs != [] && TypeOf(vs[0]) == ts[0] && ReadFrom(vs[0], data, at)
    ensures DecodeFrom(ts[1..], data, at + WORD) == Some(vs[1..])
  {
    var w := data[at..at + WORD];
    HeadDecoded(ts[0], w, data, vs[0]);
    assert Stands(data, at, w);
  }

  predicate AllReadFrom(vs: seq<Value>, data: seq<byte>, at: nat) {
    forall i :: 0 <= i < |vs| ==> ReadFrom(vs[i], data, at + WORD * i)
  }

  lemma FirstAndRest(vs: seq<Value>, data: seq<byte>, at: nat)
    requires vs != [] && ReadFrom(vs[0], data, at) && AllReadFrom(vs[1..], data, at + WORD)
    ensures AllReadFrom(vs, data, at)
  {
    forall i | 0 <= i < |vs| ensures ReadFrom(vs[i], data, at + WORD * i) {
      if i > 0 { assert ReadFrom(vs[1..][i - 1], data, at + WORD + WORD * (i - 1)); }
    }
  }

  lemma {:induction false} ListDecoded(ts: seq<Type>, data: seq<byte>, at: nat, vs: seq<Value>)
    requires DecodeFrom(ts, data, at) == Some(vs)
    ensures |vs| == |ts| && TypesOf(vs) == ts && AllReadFrom(vs, data, at)
    decreases |ts|
  {
    if ts != [] {
      FirstDecoded(ts, data, at, vs);
      ListDecoded(ts[1..], data, at + WORD, vs[1..]);
      FirstAndRest(vs, data, at);
    }
  }

  /** Whatever the decoder accepts is encoded there: each value of the asked type, a static one in its own head
      word, and a dynamic one, with its length and its zero padding, where its head word points. */
  lemma AcceptsOnlyEncodings(ts: seq<Type>, data: seq<byte>, vs: seq<Value>)
    requires Decode(ts, data) == Some(vs)
    ensures TypesOf(vs) == ts && AllAdmissible(vs)
    ensures forall i :: 0 <= i < |vs| ==> ReadFrom(vs[i], data, WORD * i)
  {
    ListDecoded(ts, data, 0, vs);
    forall i | 0 <= i < |vs| ensures Admissible(vs[i]) && ReadFrom(vs[i], data, WORD * i) {
      assert ReadFrom(vs[i], data, 0 + WORD * i);
    }
  }

  // ---- Calls: a 4-byte selector followed by the arguments ----

  function Call(selector: seq<byte>, vs: seq<Value>): seq<byte>
    requires AllAdmissible(vs)
  {
    selector + Encode(vs)
  }

  /** Calldata as the JSON-RPC interface carries it. */
  function CallHex(selector: seq<byte>, vs: seq<Value>): string
    requires AllAdmissible(vs)
  {
    "0x" + ToHex(Call(selector, vs))
  }

  function DecodeCallHex(ts: seq<Type>, s: string): Option<(seq<byte>, seq<Value>)> {
    if |s| < 2 || s[..2] != "0x" then None else
    match FromHex(s[2..])
    case None => None
    case Some(data) =>
      if |data| < 4 then None else
      match Decode(ts, data[4..])
      case None => None
      case Some(vs) => Some((data[..4], vs))
  }

  /** What is accepted as a call is "0x" and the hex text of a selector and arguments that the decoder accepts. */
  lemma AcceptsOnlyCalls(ts: seq<Type>, s: string, selector: seq<byte>, vs: seq<Value>)
    requires DecodeCallHex(ts, s) == Some((selector, vs))
    ensures |s| >= 2 && s[0] == '0' && s[1] == 'x' && |selector| == 4
    ensures FromHex(s[2..]).Some? && |FromHex(s[2..]).value| >= 4 && FromHex(s[2..]).value[..4] == selector
    ensures Decode(ts, FromHex(s[2..]).value[4..]) == Some(vs)
  {
    assert s[..2][0] == s[0] && s[..2][1] == s[1];
  }

  lemma {:induction false} CallRoundTrip(selector: seq<byte>, vs: seq<Value>)
    requires |selector| == 4 && Fits(vs)
    ensures DecodeCallHex(TypesOf(vs), CallHex(selector, vs)) == Some((selector, vs))
  {
    var data := Call(selector, vs);
    FromHexToHex(data);
    assert CallHex(selector, vs)[2..] == ToHex(data);
    assert data[4..] == Encode(vs) && data[..4] == selector;
    RoundTrip(vs);
  }
}
