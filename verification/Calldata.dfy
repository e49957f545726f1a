/** The hand-written calldata encoders of the test runner, and their agreement with module Abi. */
module Calldata {
  import opened Wrappers
  import opened Hex
  import opened Layout
  import opened Abi

  // ---- Building blocks ----

  function Drop2(s: string): string {
    if |s| >= 2 then s[2..] else []
  }

  /** `bytes.fromhex(s[2:]).rjust(32, b"\x00")` */
  function AddressWord(s: string): Result<seq<byte>> {
    match FromHex(Drop2(s))
    case None => Raised(ValueError)
    case Some(bs) => Ok(if |bs| >= WORD then bs else Zeros(WORD - |bs|) + bs)
  }

  /** `n.to_bytes(32, "big")` */
  function UintWord(n: int): Result<seq<byte>> {
    if 0 <= n < Pow256(WORD) then Ok(Word(n)) else Raised(OverflowError)
  }

  /** `_pad32` */
  function Pad32(s: string): string {
    ZFill(RemovePrefix0x(Lower(s)), 64)
  }

  /** s is the usual text form, in any letter case, of the 20-byte address a. */
  predicate Names(s: string, a: seq<byte>) {
    |s| == 42 && s[..2] == "0x" && AllDigits(s[2..]) && FromHex(s[2..]) == Some(a)
  }

  /** s is 0x-prefixed hex text, in any letter case, of the bytes bs. */
  predicate Spells(s: string, bs: seq<byte>) {
    |s| >= 2 && s[..2] == "0x" && AllDigits(s[2..]) && FromHex(s[2..]) == Some(bs)
  }

  // ---- Encoders that concatenate bytes ----

  const MINT: seq<byte> := [0x40, 0xc1, 0x0f, 0x19]
  const APPROVE: seq<byte> := [0x09, 0x5e, 0xa7, 0xb3]
  const DEPOSIT_ERC20: seq<byte> := [0x21, 0x42, 0x5e, 0xe0]
  const DEPOSIT_ERC721: seq<byte> := [0x28, 0x91, 0x1e, 0x83]
  const MINT_ERC1155: seq<byte> := [0x15, 0x6e, 0x29, 0xf6]
  const SET_APPROVAL: seq<byte> := [0xa2, 0x2c, 0xb4, 0x65]
  const DEPOSIT_ERC1155: seq<byte> := [0xde, 0xc0, 0x7d, 0xca]
  const DEPOSIT_ETHER: seq<byte> := [0x93, 0x8c, 0x05, 0x4f]
  const ADD_INPUT: seq<byte> := [0x17, 0x89, 0xcd, 0x63]
  const SUBMIT_CLAIM: seq<byte> := [0x64, 0x70, 0xaf, 0x00]

  /** `mint(address,uint256)`, `approve(address,uint256)`: one address, one number. */
  function EncodeAddressUint(selector: seq<byte>, to: string, n: int): Result<string> {
    var a :- AddressWord(to);
    var w :- UintWord(n);
    Ok("0x" + ToHex(selector + a + w))
  }

  function EncodeErc20Deposit(token: string, app: string, amount: int): Result<string> {
    var t :- AddressWord(token);
    var a :- AddressWord(app);
    var w :- UintWord(amount);
    Ok("0x" + ToHex(DEPOSIT_ERC20 + t + a + w + Word(128) + Word(0)))
  }

  function EncodeErc721Deposit(token: string, app: string, tokenId: int): Result<string> {
    var t :- AddressWord(token);
    var a :- AddressWord(app);
    var w :- UintWord(tokenId);
    Ok("0x" + ToHex(DEPOSIT_ERC721 + (t + a + w + Word(160) + Word(192)) + (Word(0) + Word(0))))
  }

  function EncodeErc1155Mint(to: string, tokenId: int, amount: int): Result<string> {
    var a :- AddressWord(to);
    var i :- UintWord(tokenId);
    var n :- UintWord(amount);
    Ok("0x" + ToHex(MINT_ERC1155 + a + i + n))
  }

  function EncodeSetApprovalForAll(operator: string, approved: bool): Result<string> {
    var a :- AddressWord(operator);
    Ok("0x" + ToHex(SET_APPROVAL + a + Word(if approved then 1 else 0)))
  }

  function EncodeErc1155Deposit(token: string, app: string, tokenId: int, amount: int): Result<string> {
    var t :- AddressWord(token);
    var a :- AddressWord(app);
    var i :- UintWord(tokenId);
    var n :- UintWord(amount);
    Ok("0x" + ToHex(DEPOSIT_ERC1155 + (t + a + i + n + Word(192) + Word(224)) + (Word(0) + Word(0))))
  }

  // ---- The three padding formulas ----

  function PadModulo(n: nat): nat {
    (32 - n % 32) % 32
  }

  function RoundUp(n: nat): nat {
    (n + 31) / 32 * 32
  }

  function PadBranch(n: nat): nat {
    if n % 32 != 0 then 32 - n % 32 else 0
  }

  /** All three reach the least multiple of 32 that is not below n. */
  lemma PaddingsAgree(n: nat)
    ensures n + PadModulo(n) == RoundUp(n) == n + PadBranch(n) == n + PadLength(n)
    ensures RoundUp(n) % 32 == 0 && n <= RoundUp(n)
    ensures forall m: nat :: m % 32 == 0 && n <= m ==> RoundUp(n) <= m
  {
    forall m: nat | m % 32 == 0 && n <= m ensures RoundUp(n) <= m {
      assert m == m / 32 * 32 && (n + 31) / 32 <= m / 32;
    }
  }

  // ---- Encoders that concatenate hex text ----

  /** The calldata text for one address and one byte string, from its five parts. */
  function CallText(selector: string, addr: string, offset: string, length: string, body: string): string {
    "0x" + (selector + addr + offset + length + body)
  }

  /** The bytes of the optional data argument; an empty argument and "0x" both mean no bytes. */
  function ExecBytes(execLayerData: string): Option<seq<byte>> {
    if execLayerData != "" && execLayerData != "0x" then FromHex(RemovePrefix0x(execLayerData)) else Some([])
  }

  function EncodeDepositEther(app: string, execLayerData: string): Result<string> {
    match ExecBytes(execLayerData)
    case None => Raised(ValueError)
    case Some(data) =>
      Ok(CallText("938c054f", Pad32(app), Pad32("40"), Pad32(NatHex(|data|)),
                  ToHex(data + Zeros(PadModulo(|data|)))))
  }

  /** The payload text that `_abi_encode_add_input` works on. */
  function RawPayload(payload: string): string {
    RemoveSpaces(RemovePrefix0x(Lower(payload)))
  }

  /** The literal offset word of `_abi_encode_add_input`. */
  function OffsetText(): string {
    Repeat('0', 62) + "40"
  }

  function LengthText(raw: string): string {
    ZFill(NatHex(|raw| / 2), 64)
  }

  function BodyText(raw: string): string {
    LJust0(raw, RoundUp(|raw| / 2) * 2)
  }

  function AddInputText(app: string, raw: string): string {
    CallText("1789cd63", Pad32(app), OffsetText(), LengthText(raw), BodyText(raw))
  }

  function EncodeAddInput(app: string, payload: string): string {
    AddInputText(app, RawPayload(payload))
  }

  /** `_structured_payload` for "string", the text given as its UTF-8 bytes. */
  function StructuredString(encoded: seq<byte>): seq<byte> {
    Word(32) + Word(|encoded|) + (encoded + Zeros(PadBranch(|encoded|)))
  }

  /** `_structured_payload` for "uint256". */
  function StructuredUint(value: nat): seq<byte> {
    Word(value)
  }

  /** `_structured_payload` for "address". */
  function StructuredAddress(address: seq<byte>): seq<byte> {
    Zeros(12) + address
  }

  function EncodeSubmitClaim(app: string, lastBlock: nat, claimHash: string): string {
    "0x6470af00" + ZFill(LStrip0x(Lower(app)), 64) + ZFill(NatHex(lastBlock), 64)
    + ZFill(LStrip0x(claimHash), 64)
  }

  // ---- Explicit layouts ----

  lemma {:induction false} HeadsCons(s: Slot, rest: seq<Slot>, off: nat)
    requires s.Valid() && AllValid(rest)
    ensures AllValid([s] + rest)
    ensures Heads([s] + rest, off) == s.Head(off) + Heads(rest, off + |s.Tail()|)
    ensures Tails([s] + rest) == s.Tail() + Tails(rest)
  {
    var ss := [s] + rest;
    assert ss[0] == s && ss[1..] == rest;
  }

  lemma Assoc(a: seq<byte>, b: seq<byte>, c: seq<byte>)
    ensures a + (b + c) == a + b + c
  {}

  /** The head words of static values, in order. */
  lemma {:induction false} HeadsStatic(w: seq<byte>, rest: seq<Slot>, off: nat)
    requires |w| == WORD && AllValid(rest)
    ensures AllValid([Static(w)] + rest)
    ensures Heads([Static(w)] + rest, off) == w + Heads(rest, off)
    ensures Tails([Static(w)] + rest) == Tails(rest)
  {
    HeadsCons(Static(w), rest, off);
  }

  lemma LayStatic2(a: seq<byte>, b: seq<byte>)
    requires |a| == |b| == WORD
    ensures AllValid([Static(a), Static(b)]) && Lay([Static(a), Static(b)]) == a + b
  {
    HeadsStatic(b, [], 64);
    HeadsStatic(a, [Static(b)], 64);
    assert [Static(b)] == [Static(b)] + [];
    assert [Static(a), Static(b)] == [Static(a)] + [Static(b)];
  }

  lemma LayStatic3(a: seq<byte>, b: seq<byte>, c: seq<byte>)
    requires |a| == |b| == |c| == WORD
    ensures AllValid([Static(a), Static(b), Static(c)]) && Lay([Static(a), Static(b), Static(c)]) == a + b + c
  {
    var off := 96;
    HeadsStatic(c, [], off);
    HeadsStatic(b, [Static(c)], off);
    HeadsStatic(a, [Static(b), Static(c)], off);
    assert [Static(c)] == [Static(c)] + [];
    assert [Static(b), Static(c)] == [Static(b)] + [Static(c)];
    assert [Static(a), Static(b), Static(c)] == [Static(a)] + [Static(b), Static(c)];
    Assoc(a, b, c);
  }

  /** One byte string after one static value. */
  lemma LayStaticDynamic(a: seq<byte>, d: seq<byte>)
    requires |a| == WORD && |d| % WORD == 0
    ensures AllValid([Static(a), Dynamic(d)])
    ensures Lay([Static(a), Dynamic(d)]) == a + Word(64) + d
  {
    var off := 64;
    HeadsCons(Dynamic(d), [], off);
    HeadsStatic(a, [Dynamic(d)], off);
    assert [Dynamic(d)] == [Dynamic(d)] + [];
    assert [Static(a), Dynamic(d)] == [Static(a)] + [Dynamic(d)];
  }

  /** Two byte strings with nothing before them: heads and tails. */
  lemma TwoDynamics(d: seq<byte>, e: seq<byte>, off: nat)
    requires |d| % WORD == 0 && |e| % WORD == 0
    ensures AllValid([Dynamic(d), Dynamic(e)])
    ensures Heads([Dynamic(d), Dynamic(e)], off) == Word(off) + Word(off + |d|)
    ensures Tails([Dynamic(d), Dynamic(e)]) == d + e
  {
    HeadsCons(Dynamic(e), [], off + |d|);
    HeadsCons(Dynamic(d), [Dynamic(e)], off);
    assert [Dynamic(e)] == [Dynamic(e)] + [];
    assert [Dynamic(d), Dynamic(e)] == [Dynamic(d)] + [Dynamic(e)];
  }

  /** Three static values before other slots. */
  lemma {:induction false} HeadsStatic3(a: seq<byte>, b: seq<byte>, c: seq<byte>, rest: seq<Slot>, off: nat)
    requires |a| == |b| == |c| == WORD && AllValid(rest)
    ensures AllValid([Static(a), Static(b), Static(c)] + rest)
    ensures Heads([Static(a), Static(b), Static(c)] + rest, off) == a + b + c + Heads(rest, off)
    ensures Tails([Static(a), Static(b), Static(c)] + rest) == Tails(rest)
  {
    HeadsStatic(c, rest, off);
    HeadsStatic(b, [Static(c)] + rest, off);
    HeadsStatic(a, [Static(b)] + ([Static(c)] + rest), off);
    assert [Static(a), Static(b), Static(c)] + rest == [Static(a)] + ([Static(b)] + ([Static(c)] + rest));
    var r := Heads(rest, off);
    calc {
      a + (b + (c + r));
    == { Assoc(b, c, r); }
      a + (b + c + r);
    == { Assoc(a, b + c, r); }
      a + (b + c) + r;
    == { Assoc(a, b, c); }
      a + b + c + r;
    }
  }

  // ---- Agreement of the byte encoders with the ABI ----

  /** The result is the ABI encoding of the call, and the decoder gets exactly the selector and the
      arguments back from it. */
  ghost predicate Faithful(r: Result<string>, selector: seq<byte>, vs: seq<Value>) {
    && Fits(vs)
    && r == Ok(CallHex(selector, vs))
    && DecodeCallHex(TypesOf(vs), r.value) == Some((selector, vs))
  }

  lemma AddressWordOf(s: string, a: seq<byte>)
    requires Names(s, a)
    ensures Admissible(VAddress(a)) && AddressWord(s) == Ok(SlotOf(VAddress(a)).word)
  {
    LowerIsToHex(s[2..]);
  }

  lemma UintWordOf(n: nat)
    requires n < Pow256(WORD)
    ensures Admissible(VUint256(n)) && UintWord(n) == Ok(SlotOf(VUint256(n)).word)
  {
    InWordIff(n);
  }

  lemma {:induction false} Pow256Monotonic(i: nat, j: nat)
    requires i <= j
    ensures Pow256(i) <= Pow256(j)
    decreases j
  {
    if i < j { Pow256Monotonic(i, j - 1); }
  }

  lemma EmptyBytesSlot()
    ensures Admissible(VBytes([])) && SlotOf(VBytes([])) == Dynamic(Word(0))
  {
    SmallInWord(0);
    assert Word(0) + PadRight([]) == Word(0);
  }

  lemma {:induction false} FaithfulIf(selector: seq<byte>, vs: seq<Value>, args: seq<byte>)
    requires |selector| == 4 && AllAdmissible(vs) && Encode(vs) == args && |args| < 65536
    ensures Faithful(Ok("0x" + ToHex(selector + args)), selector, vs)
  {
    CallRoundTrip(selector, vs);
  }

  lemma {:induction false} TwoStaticFaithful(selector: seq<byte>, x: Value, y: Value, w: seq<byte>, u: seq<byte>)
    requires |selector| == 4 && Admissible(x) && Admissible(y) && |w| == |u| == WORD
    requires SlotOf(x) == Static(w) && SlotOf(y) == Static(u)
    ensures Faithful(Ok("0x" + ToHex(selector + (w + u))), selector, [x, y])
  {
    var vs := [x, y];
    assert Slots(vs) == [Static(w), Static(u)];
    LayStatic2(w, u);
    FaithfulIf(selector, vs, w + u);
  }

  lemma AddressUintFaithful(selector: seq<byte>, to: string, n: nat, a: seq<byte>)
    requires |selector| == 4 && Names(to, a) && n < Pow256(WORD)
    ensures Faithful(EncodeAddressUint(selector, to, n), selector, [VAddress(a), VUint256(n)])
  {
    AddressWordOf(to, a);
    UintWordOf(n);
    var w, u := SlotOf(VAddress(a)).word, SlotOf(VUint256(n)).word;
    Assoc(selector, w, u);
    TwoStaticFaithful(selector, VAddress(a), VUint256(n), w, u);
  }

  /** A number that does not fit 256 bits raises, and nothing else does where the address is one. */
  lemma AddressUintRaisesIff(selector: seq<byte>, to: string, n: int, a: seq<byte>)
    requires Names(to, a)
    ensures EncodeAddressUint(selector, to, n).Raised? <==> n < 0 || n >= Pow256(32)
  {
    AddressWordOf(to, a);
  }

  /** The calldata of `mint(address,uint256)`, of ERC20 and ERC721 tokens alike. */
  lemma MintFaithful(to: string, n: nat, a: seq<byte>)
    requires Names(to, a) && n < Pow256(WORD)
    ensures Faithful(EncodeAddressUint(MINT, to, n), MINT, [VAddress(a), VUint256(n)])
  {
    AddressUintFaithful(MINT, to, n, a);
  }

  /** The calldata of `approve(address,uint256)`. */
  lemma ApproveFaithful(spender: string, amount: nat, a: seq<byte>)
    requires Names(spender, a) && amount < Pow256(WORD)
    ensures Faithful(EncodeAddressUint(APPROVE, spender, amount), APPROVE, [VAddress(a), VUint256(amount)])
  {
    AddressUintFaithful(APPROVE, spender, amount, a);
  }

  lemma SetApprovalFaithful(operator: string, approved: bool, a: seq<byte>)
    requires Names(operator, a)
    ensures Faithful(EncodeSetApprovalForAll(operator, approved), SET_APPROVAL, [VAddress(a), VBool(approved)])
  {
    AddressWordOf(operator, a);
    var w, u := SlotOf(VAddress(a)).word, SlotOf(VBool(approved)).word;
    Assoc(SET_APPROVAL, w, u);
    TwoStaticFaithful(SET_APPROVAL, VAddress(a), VBool(approved), w, u);
  }

  lemma {:induction false} Erc1155MintText(to: string, tokenId: nat, amount: nat, w: seq<byte>, i: seq<byte>,
      n: seq<byte>)
    requires AddressWord(to) == Ok(w) && UintWord(tokenId) == Ok(i) && UintWord(amount) == Ok(n)
    ensures EncodeErc1155Mint(to, tokenId, amount) == Ok("0x" + ToHex(MINT_ERC1155) + ToHex(w) + ToHex(i) + ToHex(n))
  {
    Assoc(MINT_ERC1155, w + i, n);
    Assoc(MINT_ERC1155, w, i);
    ThreeWordsCall(MINT_ERC1155, w, i, n);
  }

  lemma Erc1155MintFaithful(to: string, tokenId: nat, amount: nat, a: seq<byte>)
    requires Names(to, a) && tokenId < Pow256(WORD) && amount < Pow256(WORD)
    ensures Faithful(EncodeErc1155Mint(to, tokenId, amount), MINT_ERC1155,
                     [VAddress(a), VUint256(tokenId), VUint256(amount)])
  {
    AddressWordOf(to, a);
    UintWordOf(tokenId);
    UintWordOf(amount);
    var w, i, n := SlotOf(VAddress(a)).word, SlotOf(VUint256(tokenId)).word, SlotOf(VUint256(amount)).word;
    Erc1155MintText(to, tokenId, amount, w, i, n);
    ThreeStaticFaithful(MINT_ERC1155, VAddress(a), VUint256(tokenId), VUint256(amount), w, i, n);
  }

  lemma LayErc20(a: seq<byte>, b: seq<byte>, c: seq<byte>, d: seq<byte>)
    requires |a| == |b| == |c| == |d| == WORD
    ensures AllValid([Static(a), Static(b), Static(c), Dynamic(d)])
    ensures Lay([Static(a), Static(b), Static(c), Dynamic(d)]) == a + b + c + Word(128) + d
  {
    HeadsCons(Dynamic(d), [], 128);
    assert [Dynamic(d)] == [Dynamic(d)] + [];
    HeadsStatic3(a, b, c, [Dynamic(d)], 128);
    assert [Static(a), Static(b), Static(c)] + [Dynamic(d)] == [Static(a), Static(b), Static(c), Dynamic(d)];
  }

  lemma Erc20Encodes(vs: seq<Value>, w: seq<byte>, x: seq<byte>, n: seq<byte>)
    requires |vs| == 4 && AllAdmissible(vs) && vs[3] == VBytes([])
    requires SlotOf(vs[0]) == Static(w) && SlotOf(vs[1]) == Static(x) && SlotOf(vs[2]) == Static(n)
    requires |w| == |x| == |n| == WORD
    ensures Encode(vs) == w + x + n + Word(128) + Word(0) && |Encode(vs)| == 160
  {
    EmptyBytesSlot();
    assert Slots(vs) == [Static(w), Static(x), Static(n), Dynamic(Word(0))];
    LayErc20(w, x, n, Word(0));
  }

  lemma Assoc5(s: seq<byte>, a: seq<byte>, b: seq<byte>, c: seq<byte>, d: seq<byte>, e: seq<byte>)
    ensures s + a + b + c + d + e == s + (a + b + c + d + e)
  {
    Assoc(s, a + b + c + d, e);
    Assoc(s, a + b + c, d);
    Assoc(s, a + b, c);
    Assoc(s, a, b);
  }

  /** Three static values with their words. */
  predicate Words3(u: Value, v: Value, z: Value, w: seq<byte>, x: seq<byte>, n: seq<byte>) {
    && Admissible(u) && Admissible(v) && Admissible(z) && |w| == |x| == |n| == WORD
    && SlotOf(u) == Static(w) && SlotOf(v) == Static(x) && SlotOf(z) == Static(n)
  }

  /** The words of the three leading static arguments of the deposits. */
  lemma DepositWords(token: string, app: string, n: nat, t: seq<byte>, a: seq<byte>)
    returns (w: seq<byte>, x: seq<byte>, u: seq<byte>)
    requires Names(token, t) && Names(app, a) && n < Pow256(WORD)
    ensures Words3(VAddress(t), VAddress(a), VUint256(n), w, x, u) && Admissible(VBytes([]))
    ensures AddressWord(token) == Ok(w) && AddressWord(app) == Ok(x) && UintWord(n) == Ok(u)
  {
    AddressWordOf(token, t);
    AddressWordOf(app, a);
    UintWordOf(n);
    EmptyBytesSlot();
    w, x, u := SlotOf(VAddress(t)).word, SlotOf(VAddress(a)).word, SlotOf(VUint256(n)).word;
  }

  lemma FourValues(a: Value, b: Value, c: Value, d: Value) returns (vs: seq<Value>)
    requires Admissible(a) && Admissible(b) && Admissible(c) && Admissible(d)
    ensures vs == [a, b, c, d] && AllAdmissible(vs)
    ensures |vs| == 4 && vs[0] == a && vs[1] == b && vs[2] == c && vs[3] == d
  {
    vs := [a, b, c, d];
  }

  lemma FiveValues(a: Value, b: Value, c: Value, d: Value, e: Value) returns (vs: seq<Value>)
    requires Admissible(a) && Admissible(b) && Admissible(c) && Admissible(d) && Admissible(e)
    ensures vs == [a, b, c, d, e] && AllAdmissible(vs)
    ensures |vs| == 5 && vs[0] == a && vs[1] == b && vs[2] == c && vs[3] == d && vs[4] == e
  {
    vs := [a, b, c, d, e];
  }

  lemma SixValues(a: Value, b: Value, c: Value, d: Value, e: Value, f: Value) returns (vs: seq<Value>)
    requires Admissible(a) && Admissible(b) && Admissible(c) && Admissible(d) && Admissible(e) && Admissible(f)
    ensures vs == [a, b, c, d, e, f] && AllAdmissible(vs)
    ensures |vs| == 6 && vs[0] == a && vs[1] == b && vs[2] == c && vs[3] == d && vs[4] == e && vs[5] == f
  {
    vs := [a, b, c, d, e, f];
  }

  lemma {:induction false} Erc20Text(token: string, app: string, amount: nat, w: seq<byte>, x: seq<byte>, n: seq<byte>)
    requires AddressWord(token) == Ok(w) && AddressWord(app) == Ok(x) && UintWord(amount) == Ok(n)
    ensures EncodeErc20Deposit(token, app, amount)
      == Ok("0x" + ToHex(DEPOSIT_ERC20 + (w + x + n + Word(128) + Word(0))))
  {
    Assoc5(DEPOSIT_ERC20, w, x, n, Word(128), Word(0));
  }

  lemma Erc20OnList(token: string, app: string, amount: nat, vs: seq<Value>,
                    w: seq<byte>, x: seq<byte>, n: seq<byte>)
    requires |vs| == 4 && AllAdmissible(vs) && Words3(vs[0], vs[1], vs[2], w, x, n) && vs[3] == VBytes([])
    requires AddressWord(token) == Ok(w) && AddressWord(app) == Ok(x) && UintWord(amount) == Ok(n)
    ensures Faithful(EncodeErc20Deposit(token, app, amount), DEPOSIT_ERC20, vs)
  {
    Erc20Encodes(vs, w, x, n);
    Erc20Text(token, app, amount, w, x, n);
    FaithfulIf(DEPOSIT_ERC20, vs, Encode(vs));
  }

  lemma Erc20OnWords(token: string, app: string, amount: nat, u: Value, v: Value, z: Value, empty: Value,
                     w: seq<byte>, x: seq<byte>, n: seq<byte>)
    requires Words3(u, v, z, w, x, n) && empty == VBytes([]) && Admissible(empty)
    requires AddressWord(token) == Ok(w) && AddressWord(app) == Ok(x) && UintWord(amount) == Ok(n)
    ensures Faithful(EncodeErc20Deposit(token, app, amount), DEPOSIT_ERC20, [u, v, z, empty])
  {
    var vs := FourValues(u, v, z, empty);
    Erc20OnList(token, app, amount, vs, w, x, n);
  }

  lemma Erc20DepositFaithful(token: string, app: string, amount: nat, t: seq<byte>, a: seq<byte>)
    requires Names(token, t) && Names(app, a) && amount < Pow256(WORD)
    ensures Faithful(EncodeErc20Deposit(token, app, amount), DEPOSIT_ERC20,
                     [VAddress(t), VAddress(a), VUint256(amount), VBytes([])])
  {
    var w, x, n := DepositWords(token, app, amount, t, a);
    Erc20OnWords(token, app, amount, VAddress(t), VAddress(a), VUint256(amount), VBytes([]), w, x, n);
  }

  lemma LayErc721(a: seq<byte>, b: seq<byte>, c: seq<byte>, d: seq<byte>)
    requires |a| == |b| == |c| == |d| == WORD
    ensures AllValid([Static(a), Static(b), Static(c), Dynamic(d), Dynamic(d)])
    ensures Lay([Static(a), Static(b), Static(c), Dynamic(d), Dynamic(d)])
         == (a + b + c + Word(160) + Word(192)) + (d + d)
  {
    TwoDynamics(d, d, 160);
    HeadsStatic3(a, b, c, [Dynamic(d), Dynamic(d)], 160);
    assert [Static(a), Static(b), Static(c)] + [Dynamic(d), Dynamic(d)]
        == [Static(a), Static(b), Static(c), Dynamic(d), Dynamic(d)];
    Assoc(a + b + c, Word(160), Word(192));
  }

  lemma Erc721Encodes(vs: seq<Value>, w: seq<byte>, x: seq<byte>, n: seq<byte>)
    requires |vs| == 5 && AllAdmissible(vs) && vs[3] == vs[4] == VBytes([])
    requires SlotOf(vs[0]) == Static(w) && SlotOf(vs[1]) == Static(x) && SlotOf(vs[2]) == Static(n)
    requires |w| == |x| == |n| == WORD
    ensures Encode(vs) == (w + x + n + Word(160) + Word(192)) + (Word(0) + Word(0)) && |Encode(vs)| == 224
  {
    EmptyBytesSlot();
    assert Slots(vs) == [Static(w), Static(x), Static(n), Dynamic(Word(0)), Dynamic(Word(0))];
    LayErc721(w, x, n, Word(0));
  }

  lemma {:induction false} Erc721Text(token: string, app: string, tokenId: nat, w: seq<byte>, x: seq<byte>,
      n: seq<byte>)
    requires AddressWord(token) == Ok(w) && AddressWord(app) == Ok(x) && UintWord(tokenId) == Ok(n)
    ensures EncodeErc721Deposit(token, app, tokenId)
         == Ok("0x" + ToHex(DEPOSIT_ERC721 + ((w + x + n + Word(160) + Word(192)) + (Word(0) + Word(0)))))
  {
    Assoc(DEPOSIT_ERC721, w + x + n + Word(160) + Word(192), Word(0) + Word(0));
  }

  lemma Erc721OnList(token: string, app: string, tokenId: nat, vs: seq<Value>,
                     w: seq<byte>, x: seq<byte>, n: seq<byte>)
    requires |vs| == 5 && AllAdmissible(vs) && Words3(vs[0], vs[1], vs[2], w, x, n) && vs[3] == vs[4] == VBytes([])
    requires AddressWord(token) == Ok(w) && AddressWord(app) == Ok(x) && UintWord(tokenId) == Ok(n)
    ensures Faithful(EncodeErc721Deposit(token, app, tokenId), DEPOSIT_ERC721, vs)
  {
    Erc721Encodes(vs, w, x, n);
    Erc721Text(token, app, tokenId, w, x, n);
    FaithfulIf(DEPOSIT_ERC721, vs, Encode(vs));
  }

  lemma Erc721OnWords(token: string, app: string, tokenId: nat, u: Value, v: Value, z: Value, empty: Value,
                      w: seq<byte>, x: seq<byte>, n: seq<byte>)
    requires Words3(u, v, z, w, x, n) && empty == VBytes([]) && Admissible(empty)
    requires AddressWord(token) == Ok(w) && AddressWord(app) == Ok(x) && UintWord(tokenId) == Ok(n)
    ensures Faithful(EncodeErc721Deposit(token, app, tokenId), DEPOSIT_ERC721, [u, v, z, empty, empty])
  {
    var vs := FiveValues(u, v, z, empty, empty);
    Erc721OnList(token, app, tokenId, vs, w, x, n);
  }

  lemma Erc721DepositFaithful(token: string, app: string, tokenId: nat, t: seq<byte>, a: seq<byte>)
    requires Names(token, t) && Names(app, a) && tokenId < Pow256(WORD)
    ensures Faithful(EncodeErc721Deposit(token, app, tokenId), DEPOSIT_ERC721,
                     [VAddress(t), VAddress(a), VUint256(tokenId), VBytes([]), VBytes([])])
  {
    var w, x, n := DepositWords(token, app, tokenId, t, a);
    Erc721OnWords(token, app, tokenId, VAddress(t), VAddress(a), VUint256(tokenId), VBytes([]), w, x, n);
  }

  lemma LayErc1155(a: seq<byte>, b: seq<byte>, c: seq<byte>, d: seq<byte>, e: seq<byte>)
    requires |a| == |b| == |c| == |d| == |e| == WORD
    ensures AllValid([Static(a), Static(b), Static(c), Static(d), Dynamic(e), Dynamic(e)])
    ensures Lay([Static(a), Static(b), Static(c), Static(d), Dynamic(e), Dynamic(e)])
         == (a + b + c + d + Word(192) + Word(224)) + (e + e)
  {
    var dyn := [Dynamic(e), Dynamic(e)];
    TwoDynamics(e, e, 192);
    HeadsStatic(d, dyn, 192);
    HeadsStatic3(a, b, c, [Static(d)] + dyn, 192);
    assert [Static(a), Static(b), Static(c)] + ([Static(d)] + dyn)
        == [Static(a), Static(b), Static(c), Static(d), Dynamic(e), Dynamic(e)];
    Assoc(d, Word(192), Word(224));
    Assoc(a + b + c, d + Word(192), Word(224));
    Assoc(a + b + c, d, Word(192));
  }

  lemma Erc1155Encodes(vs: seq<Value>, w: seq<byte>, x: seq<byte>, i: seq<byte>, n: seq<byte>)
    requires |vs| == 6 && AllAdmissible(vs) && vs[4] == vs[5] == VBytes([])
    requires SlotOf(vs[0]) == Static(w) && SlotOf(vs[1]) == Static(x)
    requires SlotOf(vs[2]) == Static(i) && SlotOf(vs[3]) == Static(n)
    requires |w| == |x| == |i| == |n| == WORD
    ensures Encode(vs) == (w + x + i + n + Word(192) + Word(224)) + (Word(0) + Word(0)) && |Encode(vs)| == 256
  {
    EmptyBytesSlot();
    assert Slots(vs) == [Static(w), Static(x), Static(i), Static(n), Dynamic(Word(0)), Dynamic(Word(0))];
    LayErc1155(w, x, i, n, Word(0));
  }

  lemma {:induction false} Erc1155Text(token: string, app: string, tokenId: nat, amount: nat,
                                       w: seq<byte>, x: seq<byte>, i: seq<byte>, n: seq<byte>)
    requires AddressWord(token) == Ok(w) && AddressWord(app) == Ok(x)
    requires UintWord(tokenId) == Ok(i) && UintWord(amount) == Ok(n)
    ensures EncodeErc1155Deposit(token, app, tokenId, amount)
         == Ok("0x" + ToHex(DEPOSIT_ERC1155 + ((w + x + i + n + Word(192) + Word(224)) + (Word(0) + Word(0)))))
  {
    Assoc(DEPOSIT_ERC1155, w + x + i + n + Word(192) + Word(224), Word(0) + Word(0));
  }

  lemma Erc1155OnList(token: string, app: string, tokenId: nat, amount: nat, vs: seq<Value>,
                      w: seq<byte>, x: seq<byte>, i: seq<byte>, n: seq<byte>)
    requires |vs| == 6 && AllAdmissible(vs) && Words3(vs[0], vs[1], vs[2], w, x, i) && SlotOf(vs[3]) == Static(n)
      && |n| == WORD
    requires vs[4] == vs[5] == VBytes([])
    requires AddressWord(token) == Ok(w) && AddressWord(app) == Ok(x)
    requires UintWord(tokenId) == Ok(i) && UintWord(amount) == Ok(n)
    ensures Faithful(EncodeErc1155Deposit(token, app, tokenId, amount), DEPOSIT_ERC1155, vs)
  {
    Erc1155Encodes(vs, w, x, i, n);
    Erc1155Text(token, app, tokenId, amount, w, x, i, n);
    FaithfulIf(DEPOSIT_ERC1155, vs, Encode(vs));
  }

  lemma Erc1155OnWords(token: string, app: string, tokenId: nat, amount: nat,
                       u: Value, v: Value, z: Value, y: Value, empty: Value,
                       w: seq<byte>, x: seq<byte>, i: seq<byte>, n: seq<byte>)
    requires Words3(u, v, z, w, x, i) && Admissible(y) && SlotOf(y) == Static(n) && |n| == WORD
    requires empty == VBytes([]) && Admissible(empty)
    requires AddressWord(token) == Ok(w) && AddressWord(app) == Ok(x)
    requires UintWord(tokenId) == Ok(i) && UintWord(amount) == Ok(n)
    ensures Faithful(EncodeErc1155Deposit(token, app, tokenId, amount), DEPOSIT_ERC1155, [u, v, z, y, empty, empty])
  {
    var vs := SixValues(u, v, z, y, empty, empty);
    Erc1155OnList(token, app, tokenId, amount, vs, w, x, i, n);
  }

  lemma Erc1155DepositFaithful(token: string, app: string, tokenId: nat, amount: nat,
                               t: seq<byte>, a: seq<byte>)
    requires Names(token, t) && Names(app, a) && tokenId < Pow256(WORD) && amount < Pow256(WORD)
    ensures Faithful(EncodeErc1155Deposit(token, app, tokenId, amount), DEPOSIT_ERC1155,
                     [VAddress(t), VAddress(a), VUint256(tokenId), VUint256(amount), VBytes([]), VBytes([])])
  {
    var w, x, i := DepositWords(token, app, tokenId, t, a);
    UintWordOf(amount);
    var n := SlotOf(VUint256(amount)).word;
    Erc1155OnWords(token, app, tokenId, amount,
                   VAddress(t), VAddress(a), VUint256(tokenId), VUint256(amount), VBytes([]), w, x, i, n);
  }

  // ---- Agreement of the text encoders with the ABI ----

  /** Lowering, dropping the prefix: the digits of the bytes. */
  lemma {:induction false} DigitsOf(s: string, bs: seq<byte>)
    requires Spells(s, bs)
    ensures RemovePrefix0x(Lower(s)) == ToHex(bs)
    ensures Lower(s) == "0x" + ToHex(bs)
  {
    LowerIsToHex(s[2..]);
  }

  lemma AddressDigits(s: string, a: seq<byte>)
    requires Names(s, a)
    ensures Admissible(VAddress(a))
    ensures Pad32(s) == ToHex(SlotOf(VAddress(a)).word)
  {
    AddressWordOf(s, a);
    DigitsOf(s, a);
    ZFillToHex(a, WORD);
  }

  lemma {:induction false} NatHexDigits(n: nat)
    ensures AllDigits(NatHex(n)) && Lower(NatHex(n)) == NatHex(n)
  {
    if n < 16 {
      assert LowerChar(Digit(n)) == Digit(n);
    } else {
      NatHexDigits(n / 16);
      var s, t := NatHex(n), NatHex(n / 16);
      assert forall i :: 0 <= i < |t| ==> s[i] == t[i] && LowerChar(s[i]) == Lower(t)[i];
      assert LowerChar(s[|t|]) == s[|t|];
      assert forall i :: 0 <= i < |s| ==> Lower(s)[i] == s[i];
    }
  }

  lemma DigitsHaveNoPrefix(s: string)
    requires AllDigits(s)
    ensures RemovePrefix0x(s) == s && ' ' !in s
  {
    assert DigitValue('x').None? && DigitValue(' ').None?;
    assert |s| >= 2 ==> s[1] == s[..2][1];
  }

  lemma {:induction false} NatDigits(n: nat)
    requires InWord(n)
    ensures ZFill(NatHex(n), 64) == ToHex(Word(n)) && Pad32(NatHex(n)) == ToHex(Word(n))
  {
    InWordIff(n);
    ZFillNatHexIsToHex(n, WORD);
    NatHexDigits(n);
    DigitsHaveNoPrefix(NatHex(n));
  }

  lemma OffsetPadIs()
    ensures NatHex(64) == "40" && Pad32("40") == ToHex(Word(64))
  {
    assert NatHex(64) == NatHex(4) + [Digit(0)];
    SmallInWord(64);
    NatDigits(64);
  }

  lemma OffsetTextIs()
    ensures OffsetText() == ToHex(Word(64))
  {
    OffsetPadIs();
    SmallInWord(64);
    NatDigits(64);
  }

  lemma SelectorDigits(a: byte, b: byte, c: byte, d: byte)
    ensures ToHex([a, b, c, d]) == [Digit(a / 16), Digit(a % 16), Digit(b / 16), Digit(b % 16),
                                    Digit(c / 16), Digit(c % 16), Digit(d / 16), Digit(d % 16)]
  {
    ToHexConcat([a], [b, c, d]);
    ToHexConcat([b], [c, d]);
    ToHexConcat([c], [d]);
    assert [a, b, c, d] == [a] + [b, c, d] && [b, c, d] == [b] + [c, d] && [c, d] == [c] + [d];
  }

  lemma {:induction false} ToHex5(a: seq<byte>, b: seq<byte>, c: seq<byte>, d: seq<byte>, e: seq<byte>)
    ensures ToHex(a + b + c + d + e) == ToHex(a) + ToHex(b) + ToHex(c) + ToHex(d) + ToHex(e)
  {
    ToHexConcat(a + b + c + d, e);
    ToHexConcat(a + b + c, d);
    ToHexConcat(a + b, c);
    ToHexConcat(a, b);
  }

  lemma StaticDynamicEncodes(u: Value, v: Value, w: seq<byte>, d: seq<byte>)
    requires Admissible(u) && Admissible(v) && SlotOf(u) == Static(w) && SlotOf(v) == Dynamic(d)
    requires |w| == WORD && |d| % WORD == 0
    ensures AllAdmissible([u, v]) && Encode([u, v]) == w + Word(64) + d
  {
    var vs := [u, v];
    assert Slots(vs) == [Static(w), Dynamic(d)];
    LayStaticDynamic(w, d);
  }

  lemma AddressBytesEncodes(a: seq<byte>, data: seq<byte>)
    requires Admissible(VAddress(a)) && Admissible(VBytes(data))
    ensures AllAdmissible([VAddress(a), VBytes(data)])
    ensures Encode([VAddress(a), VBytes(data)]) == SlotOf(VAddress(a)).word + Word(64) + (Word(|data|) + PadRight(data))
  {
    StaticDynamicEncodes(VAddress(a), VBytes(data), SlotOf(VAddress(a)).word, Word(|data|) + PadRight(data));
  }

  /** A call with one address and one byte string, written out. */
  lemma {:induction false} AddressBytesCall(selector: seq<byte>, a: seq<byte>, data: seq<byte>)
    requires Admissible(VAddress(a)) && Admissible(VBytes(data))
    ensures CallHex(selector, [VAddress(a), VBytes(data)])
         == CallText(ToHex(selector), ToHex(SlotOf(VAddress(a)).word), ToHex(Word(64)), ToHex(Word(|data|)),
                     ToHex(PadRight(data)))
  {
    var w := SlotOf(VAddress(a)).word;
    AddressBytesEncodes(a, data);
    assert selector + (w + Word(64) + (Word(|data|) + PadRight(data)))
      == selector + w + Word(64) + Word(|data|) + PadRight(data) by {
      Assoc(w + Word(64), Word(|data|), PadRight(data));
    }
    ToHex5(selector, w, Word(64), Word(|data|), PadRight(data));
  }

  /** The five parts of the calldata text of a call with one address and one byte string. */
  ghost predicate Parts(sel: string, addr: string, offset: string, length: string, body: string,
                        selector: seq<byte>, a: seq<byte>, data: seq<byte>)
    requires Admissible(VAddress(a)) && Admissible(VBytes(data))
  {
    && sel == ToHex(selector) && addr == ToHex(SlotOf(VAddress(a)).word) && offset == ToHex(Word(64))
    && length == ToHex(Word(|data|)) && body == ToHex(PadRight(data))
  }

  lemma TextFaithful(sel: string, addr: string, offset: string, length: string, body: string,
                     selector: seq<byte>, a: seq<byte>, data: seq<byte>)
    requires |selector| == 4 && Fits([VAddress(a), VBytes(data)])
    requires Admissible(VAddress(a)) && Admissible(VBytes(data))
    requires Parts(sel, addr, offset, length, body, selector, a, data)
    ensures Faithful(Ok(CallText(sel, addr, offset, length, body)), selector, [VAddress(a), VBytes(data)])
  {
    AddressBytesCall(selector, a, data);
    CallRoundTrip(selector, [VAddress(a), VBytes(data)]);
  }

  lemma FitsParts(a: seq<byte>, data: seq<byte>)
    requires Fits([VAddress(a), VBytes(data)])
    ensures Admissible(VAddress(a)) && Admissible(VBytes(data))
  {
    var vs := [VAddress(a), VBytes(data)];
    assert Admissible(vs[0]) && Admissible(vs[1]);
  }

  lemma {:induction false} PaddedData(data: seq<byte>)
    ensures data + Zeros(PadModulo(|data|)) == PadRight(data)
    ensures BodyText(ToHex(data)) == ToHex(PadRight(data))
  {
    PaddingsAgree(|data|);
    LJustToHex(data, RoundUp(|data|));
  }

  lemma DepositEtherSelector()
    ensures ToHex(DEPOSIT_ETHER) == "938c054f"
  {
    SelectorDigits(0x93, 0x8c, 0x05, 0x4f);
  }

  lemma DepositEtherFaithful(app: string, execLayerData: string, a: seq<byte>, data: seq<byte>)
    requires Names(app, a) && ExecBytes(execLayerData) == Some(data)
    requires Fits([VAddress(a), VBytes(data)])
    ensures Faithful(EncodeDepositEther(app, execLayerData), DEPOSIT_ETHER, [VAddress(a), VBytes(data)])
  {
    FitsParts(a, data);
    var sel, addr, offset, length, body := "938c054f", Pad32(app), Pad32("40"), Pad32(NatHex(|data|)),
      ToHex(data + Zeros(PadModulo(|data|)));
    assert Parts(sel, addr, offset, length, body, DEPOSIT_ETHER, a, data) by {
      AddressDigits(app, a);
      OffsetPadIs();
      NatDigits(|data|);
      PaddedData(data);
      DepositEtherSelector();
    }
    TextFaithful(sel, addr, offset, length, body, DEPOSIT_ETHER, a, data);
  }

  lemma {:induction false} ToHexDigits(bs: seq<byte>)
    ensures AllDigits(ToHex(bs))
  {
    if bs != [] {
      ToHexDigits(bs[1..]);
    }
  }

  lemma LengthTextIs(raw: string)
    requires InWord(|raw| / 2)
    ensures LengthText(raw) == ToHex(Word(|raw| / 2))
  {
    NatDigits(|raw| / 2);
  }

  lemma AddInputSelector()
    ensures ToHex(ADD_INPUT) == "1789cd63"
  {
    SelectorDigits(0x17, 0x89, 0xcd, 0x63);
  }

  lemma {:induction false} AddInputBody(data: seq<byte>)
    requires InWord(|data|)
    ensures LengthText(ToHex(data)) == ToHex(Word(|data|)) && BodyText(ToHex(data)) == ToHex(PadRight(data))
  {
    assert |ToHex(data)| / 2 == |data|;
    LengthTextIs(ToHex(data));
    PaddedData(data);
  }

  lemma {:induction false} AddInputParts(app: string, a: seq<byte>, data: seq<byte>)
    requires Names(app, a) && Admissible(VAddress(a)) && Admissible(VBytes(data))
    ensures Parts("1789cd63", Pad32(app), OffsetText(), LengthText(ToHex(data)), BodyText(ToHex(data)), ADD_INPUT, a,
      data)
  {
    assert Pad32(app) == ToHex(SlotOf(VAddress(a)).word) by { AddressDigits(app, a); }
    assert OffsetText() == ToHex(Word(64)) by { OffsetTextIs(); }
    AddInputBody(data);
    assert ToHex(ADD_INPUT) == "1789cd63" by { AddInputSelector(); }
  }

  lemma {:induction false} AddInputOnDigits(app: string, a: seq<byte>, data: seq<byte>)
    requires Names(app, a) && Fits([VAddress(a), VBytes(data)])
    ensures Faithful(Ok(AddInputText(app, ToHex(data))), ADD_INPUT, [VAddress(a), VBytes(data)])
  {
    FitsParts(a, data);
    AddInputParts(app, a, data);
    TextFaithful("1789cd63", Pad32(app), OffsetText(), LengthText(ToHex(data)), BodyText(ToHex(data)), ADD_INPUT, a,
      data);
  }

  lemma PrefixDrops(s: string)
    ensures RemovePrefix0x(s) == if |s| >= 2 && s[0] == '0' && s[1] == 'x' then s[2..] else s
  {
    if |s| >= 2 {
      var front := s[..2];
      assert |front| == 2 && front[0] == s[0] && front[1] == s[1];
    }
  }

  /** An empty data argument and "0x" are no bytes; other text is read as hex, with or without the prefix, and what
      cannot be read raises. */
  lemma ExecBytesAre(app: string, s: string)
    ensures ExecBytes("") == ExecBytes("0x") == Some([])
    ensures s != "" && s != "0x" ==>
      ExecBytes(s) == FromHex(if |s| >= 2 && s[0] == '0' && s[1] == 'x' then s[2..] else s)
    ensures EncodeDepositEther(app, s).Raised? <==> ExecBytes(s).None?
  {
    PrefixDrops(s);
  }

  /** payload is hex text of the bytes data as the encoder takes it: in any letter case, with or without the
      "0x", and with spaces anywhere. */
  predicate Carries(payload: string, data: seq<byte>) {
    AllDigits(RawPayload(payload)) && FromHex(RawPayload(payload)) == Some(data)
  }

  lemma RawIsLower(payload: string)
    ensures Lower(RawPayload(payload)) == RawPayload(payload)
  {
    RemoveSpacesIsLower(RemovePrefix0x(Lower(payload)));
  }

  /** addInput calldata decodes to the application and the payload, for every payload with an even
      number of digits. */
  lemma AddInputFaithful(app: string, payload: string, a: seq<byte>, data: seq<byte>)
    requires Names(app, a) && Carries(payload, data)
    requires Fits([VAddress(a), VBytes(data)])
    ensures Faithful(Ok(EncodeAddInput(app, payload)), ADD_INPUT, [VAddress(a), VBytes(data)])
  {
    RawIsLower(payload);
    LowerIsToHex(RawPayload(payload));
    AddInputOnDigits(app, a, data);
  }

  lemma TwoDigitsFirst(s: string)
    requires |s| >= 2 && s[0] != ' ' && s[1] != ' '
    ensures var u := RemoveSpaces(s);
      |u| >= 2 && u[0] == s[0] && u[1] == s[1] && u[2..] == RemoveSpaces(s[2..])
  {
    assert s[1..][0] == s[1] && s[1..][1..] == s[2..];
    assert RemoveSpaces(s) == [s[0]] + ([s[1]] + RemoveSpaces(s[2..]));
  }

  lemma {:induction false} DigitsBehind(u: string, n: nat)
    requires AllDigits(u) && n <= |u|
    ensures AllDigits(u[n..])
  {
    forall i | 0 <= i < |u[n..]| ensures DigitValue(u[n..][i]).Some? { assert u[n..][i] == u[n + i]; }
  }

  lemma FirstStays(s: string)
    requires s != [] && s[0] != ' '
    ensures |RemoveSpaces(s)| > 0 && RemoveSpaces(s)[0] == s[0]
  {}

  lemma {:induction false} SpaceFirst(s: string)
    requires s != [] && IsSpace(s[0]) && AllDigits(RemoveSpaces(s))
    ensures RemoveSpaces(s) == RemoveSpaces(s[1..])
  {
    if s[0] != ' ' { FirstStays(s); }
  }

  lemma {:induction false} SamePair(s: string, u: string)
    requires |s| >= 2 && |u| >= 2 && s[0] == u[0] && s[1] == u[1] && !IsSpace(s[0])
    requires FromHex(s[2..]) == FromHex(u[2..])
    ensures FromHex(s) == FromHex(u)
  {}

  /** Spaces between the bytes make no difference to what is read. */
  lemma {:induction false} SpacesDropOut(s: string)
    requires FromHex(s).Some? && AllDigits(RemoveSpaces(s))
    ensures FromHex(RemoveSpaces(s)) == FromHex(s)
    decreases |s|
  {
    if s != [] && IsSpace(s[0]) {
      SpaceFirst(s);
      SpacesDropOut(s[1..]);
    } else if s != [] {
      TwoDigitsFirst(s);
      DigitsBehind(RemoveSpaces(s), 2);
      SpacesDropOut(s[2..]);
      SamePair(s, RemoveSpaces(s));
    }
  }

  /** A payload of digits and spaces that the byte encoder accepts stands for the same bytes in both. */
  lemma {:induction false} BothRead(payload: string, data: seq<byte>)
    requires ExecBytes(payload) == Some(data) && AllDigits(RawPayload(payload))
    ensures Carries(payload, data)
  {
    var s := RemovePrefix0x(payload);
    if payload == "" || payload == "0x" {
      assert RawPayload(payload) == [];
    } else {
      assert RawPayload(payload) == RemoveSpaces(Lower(s)) by { SamePrefix(payload); }
      FromHexLower(s);
      SpacesDropOut(Lower(s));
    }
  }

  lemma SamePrefix(payload: string)
    requires FromHex(RemovePrefix0x(payload)).Some?
    ensures RemovePrefix0x(Lower(payload)) == Lower(RemovePrefix0x(payload))
  {
    if |payload| >= 2 {
      LowerOfTail(payload, 2);
      assert Lower(payload)[..2] == [LowerChar(payload[0]), LowerChar(payload[1])];
      assert payload[..2] == [payload[0], payload[1]];
    }
  }

  /** Everything in a call after "0x" and the selector. */
  function AfterSelector(text: string): string
    requires |text| >= 10
  {
    text[10..]
  }

  lemma CallHexAfterSelector(selector: seq<byte>, vs: seq<Value>)
    requires |selector| == 4 && AllAdmissible(vs)
    ensures |CallHex(selector, vs)| == 10 + 2 * |Encode(vs)|
    ensures AfterSelector(CallHex(selector, vs)) == ToHex(Encode(vs))
  {
    ToHexConcat(selector, Encode(vs));
    var t := CallHex(selector, vs);
    assert t == ("0x" + ToHex(selector)) + ToHex(Encode(vs));
  }

  /** The hex-text encoder and the byte encoder give the same calldata after the selector, for every payload of
      digits and spaces that both accept. */
  lemma TextAndByteEncodersAgree(app: string, payload: string, a: seq<byte>, data: seq<byte>)
    requires Names(app, a) && ExecBytes(payload) == Some(data) && AllDigits(RawPayload(payload))
    requires Fits([VAddress(a), VBytes(data)])
    ensures EncodeDepositEther(app, payload).Ok?
    ensures |EncodeDepositEther(app, payload).value| == |EncodeAddInput(app, payload)| >= 10
    ensures AfterSelector(EncodeDepositEther(app, payload).value) == AfterSelector(EncodeAddInput(app, payload))
  {
    var vs := [VAddress(a), VBytes(data)];
    BothRead(payload, data);
    AddInputFaithful(app, payload, a, data);
    DepositEtherFaithful(app, payload, a, data);
    CallHexAfterSelector(ADD_INPUT, vs);
    CallHexAfterSelector(DEPOSIT_ETHER, vs);
  }

  // ---- Payloads with an odd number of digits ----

  lemma {:induction false} ToHexInjective(a: seq<byte>, b: seq<byte>)
    requires ToHex(a) == ToHex(b)
    ensures a == b
  {
    FromHexToHex(a);
    FromHexToHex(b);
  }

  /** The length and body parts of addInput calldata are those of one byte string. */
  ghost predicate EncodesAs(raw: string, data: seq<byte>) {
    InWord(|data|) && LengthText(raw) == ToHex(Word(|data|)) && BodyText(raw) == ToHex(PadRight(data))
  }

  /** What `_abi_encode_add_input` makes of any digit text: an ABI encoding exactly when the number of
      digits is even, or the last digit is a zero that falls into the padding. */
  lemma {:induction false} AddInputCanonicalIff(raw: string)
    requires AllDigits(raw) && Lower(raw) == raw && InWord(|raw| / 2)
    ensures (exists data: seq<byte> :: EncodesAs(raw, data))
       <==> |raw| % 2 == 0 || (raw[|raw| - 1] == '0' && |raw| % 64 != 1)
  {
    LengthTextIs(raw);
    if |raw| % 2 == 0 {
      LowerIsToHex(raw);
      var data := FromHex(raw).value;
      PaddedData(data);
      assert EncodesAs(raw, data);
    } else if raw[|raw| - 1] == '0' && |raw| % 64 != 1 {
      var data := OddWithZero(raw);
      assert EncodesAs(raw, data);
    } else {
      forall data: seq<byte> ensures !EncodesAs(raw, data) { OddNotCanonical(raw, data); }
    }
  }

  lemma OddWidth(length: nat)
    requires length % 2 == 1
    ensures length % 64 != 1 ==> length <= RoundUp(length / 2) * 2
    ensures length % 64 == 1 ==> length > RoundUp(length / 2) * 2
  {
    PaddingsAgree(length / 2);
  }

  lemma LJustAbsorbsZero(s: string, width: nat)
    requires 0 < |s| <= width && s[|s| - 1] == '0'
    ensures LJust0(s, width) == LJust0(s[..|s| - 1], width)
  {}

  lemma OddWithZero(raw: string) returns (data: seq<byte>)
    requires AllDigits(raw) && Lower(raw) == raw
    requires |raw| % 2 == 1 && raw[|raw| - 1] == '0' && |raw| % 64 != 1
    ensures |data| == |raw| / 2 && BodyText(raw) == ToHex(PadRight(data))
  {
    var even := raw[..|raw| - 1];
    data := BytesOfEven(raw, even);
    assert |raw| / 2 == |data|;
    assert BodyText(raw) == LJust0(even, RoundUp(|data|) * 2) by {
      OddWidth(|raw|);
      LJustAbsorbsZero(raw, RoundUp(|raw| / 2) * 2);
    }
    assert BodyText(even) == ToHex(PadRight(data)) by { PaddedData(data); }
  }

  lemma BytesOfEven(raw: string, even: string) returns (data: seq<byte>)
    requires AllDigits(raw) && Lower(raw) == raw && |raw| % 2 == 1 && even == raw[..|raw| - 1]
    ensures even == ToHex(data) && |even| == 2 * |data|
  {
    assert AllDigits(even);
    LowerIsToHex(even);
    data := FromHex(even).value;
  }

  lemma LengthTextDetermines(raw: string, data: seq<byte>)
    requires InWord(|raw| / 2) && InWord(|data|) && LengthText(raw) == ToHex(Word(|data|))
    ensures |data| == |raw| / 2
  {
    LengthTextIs(raw);
    ToHexInjective(Word(|raw| / 2), Word(|data|));
  }

  /** The body of an odd number of digits is longer than that of one digit less, or differs in the digit that
      follows it. */
  lemma OddBodyDiffers(raw: string, even: string)
    requires |raw| % 2 == 1 && |even| == |raw| / 2 * 2 && !(raw[|raw| - 1] == '0' && |raw| % 64 != 1)
    ensures BodyText(raw) != BodyText(even)
  {
    var width := RoundUp(|raw| / 2) * 2;
    OddWidth(|raw|);
    if |raw| % 64 != 1 {
      assert LJust0(raw, width)[|raw| - 1] == raw[|raw| - 1];
    } else {
      assert |LJust0(raw, width)| == |raw| && |LJust0(even, width)| == width;
    }
  }

  lemma OddNotCanonical(raw: string, data: seq<byte>)
    requires InWord(|raw| / 2)
    requires |raw| % 2 == 1 && !(raw[|raw| - 1] == '0' && |raw| % 64 != 1)
    ensures !EncodesAs(raw, data)
  {
    if EncodesAs(raw, data) {
      LengthTextDetermines(raw, data);
      assert BodyText(raw) == BodyText(ToHex(data)) by { PaddedData(data); }
      OddBodyDiffers(raw, ToHex(data));
    }
  }

  // ---- submitClaim ----

  /** Dropping leading zeros and filling them in again gives back a digit string of at most the full
      width. */
  lemma {:induction false} StripThenFill(digits: string, width: nat)
    requires AllDigits(digits) && |digits| <= width
    ensures ZFill(LStrip0x(digits), width) == ZFill(digits, width)
  {
    assert DigitValue('x').None?;
    if digits != [] && digits[0] == '0' {
      StripThenFill(digits[1..], width);
    }
  }

  lemma {:induction false} StripPrefixThenFill(digits: string, width: nat)
    requires AllDigits(digits) && |digits| <= width
    ensures ZFill(LStrip0x("0x" + digits), width) == ZFill(digits, width)
  {
    assert ("0x" + digits)[1..] == "x" + digits && ("x" + digits)[1..] == digits;
    assert LStrip0x("0x" + digits) == LStrip0x(digits);
    StripThenFill(digits, width);
  }

  /** The `lstrip("0x")` of submitClaim keeps every value of up to 256 bits. */
  lemma {:induction false} StripKeepsValue(s: string, bs: seq<byte>)
    requires Spells(s, bs) && |bs| <= WORD
    ensures ZFill(LStrip0x(Lower(s)), 64) == ToHex(Zeros(WORD - |bs|) + bs)
    ensures Lower(s) == s ==> ZFill(LStrip0x(s), 64) == ToHex(Zeros(WORD - |bs|) + bs)
  {
    DigitsOf(s, bs);
    ToHexDigits(bs);
    StripPrefixThenFill(ToHex(bs), 64);
    ZFillToHex(bs, WORD);
  }

  lemma {:induction false} ThreeWordsCall(selector: seq<byte>, a: seq<byte>, b: seq<byte>, c: seq<byte>)
    ensures "0x" + ToHex(selector + (a + b + c)) == "0x" + ToHex(selector) + ToHex(a) + ToHex(b) + ToHex(c)
  {
    ToHexConcat(a, b);
    ToHexConcat(a + b, c);
    ToHexConcat(selector, a + b + c);
  }

  lemma {:induction false} SubmitClaimText(app: string, lastBlock: nat, claimHash: string, a: seq<byte>, h: seq<byte>)
    requires Names(app, a) && InWord(lastBlock)
    requires Spells(claimHash, h) && Lower(claimHash) == claimHash && |h| <= WORD
    ensures EncodeSubmitClaim(app, lastBlock, claimHash)
         == "0x" + ToHex(SUBMIT_CLAIM) + ToHex(Zeros(12) + a) + ToHex(Word(lastBlock)) + ToHex(Zeros(WORD - |h|) + h)
  {
    assert ZFill(LStrip0x(Lower(app)), 64) == ToHex(Zeros(12) + a) by {
      AddressWordOf(app, a);
      StripKeepsValue(app, a);
    }
    assert ZFill(NatHex(lastBlock), 64) == ToHex(Word(lastBlock)) by { NatDigits(lastBlock); }
    assert ZFill(LStrip0x(claimHash), 64) == ToHex(Zeros(WORD - |h|) + h) by { StripKeepsValue(claimHash, h); }
    SubmitClaimSelector();
  }

  lemma {:induction false} SubmitLowerClaim(app: string, lastBlock: nat, claimHash: string, a: seq<byte>, h: seq<byte>)
    requires Names(app, a) && lastBlock < Pow256(WORD)
    requires Spells(claimHash, h) && Lower(claimHash) == claimHash && |h| <= WORD
    ensures Faithful(Ok(EncodeSubmitClaim(app, lastBlock, claimHash)), SUBMIT_CLAIM,
                     [VAddress(a), VUint256(lastBlock), VBytes32(Zeros(WORD - |h|) + h)])
  {
    var hash := Zeros(WORD - |h|) + h;
    assert Words3(VAddress(a), VUint256(lastBlock), VBytes32(hash), Zeros(12) + a, Word(lastBlock), hash) by {
      AddressWordOf(app, a);
      UintWordOf(lastBlock);
    }
    SubmitClaimText(app, lastBlock, claimHash, a, h);
    ThreeStaticFaithful(SUBMIT_CLAIM, VAddress(a), VUint256(lastBlock), VBytes32(hash),
                        Zeros(12) + a, Word(lastBlock), hash);
  }

  lemma {:induction false} SpellsLower(s: string, bs: seq<byte>)
    requires Spells(s, bs)
    ensures Spells(Lower(s), bs)
    ensures forall i :: 0 <= i < |s| ==> s[i] != 'X'
  {
    LowerOfTail(s, 2);
    FromHexLower(s[2..]);
    assert Lower(s)[..2] == "0x";
    forall i | 0 <= i < |s| ensures s[i] != 'X' && (i >= 2 ==> DigitValue(Lower(s)[i]).Some?) {
      LowerCharSame(s[i]);
      if i >= 2 { assert s[i] == s[2..][i - 2]; } else { assert s[i] == s[..2][i]; }
    }
    assert AllDigits(Lower(s)[2..]);
  }

  /** Only the letter case of the claim hash is passed through to the calldata. */
  lemma {:induction false} SubmitClaimLower(app: string, lastBlock: nat, claimHash: string, a: seq<byte>, h: seq<byte>)
    requires Names(app, a) && InWord(lastBlock) && Spells(claimHash, h) && |h| <= WORD
    ensures Lower(EncodeSubmitClaim(app, lastBlock, claimHash)) == EncodeSubmitClaim(app, lastBlock, Lower(claimHash))
  {
    var front, x, y, z := "0x6470af00", ZFill(LStrip0x(Lower(app)), 64), ZFill(NatHex(lastBlock), 64),
      ZFill(LStrip0x(claimHash), 64);
    assert Lower(front) == front;
    assert Lower(x) == x by { AddressTextIsLower(app, a); }
    assert Lower(y) == y by { NumberTextIsLower(lastBlock); }
    assert Lower(z) == ZFill(LStrip0x(Lower(claimHash)), 64) by { HashTextLower(claimHash, h); }
    LowerBehind(front, x, y, z);
  }

  lemma {:induction false} AddressTextIsLower(app: string, a: seq<byte>)
    requires Names(app, a)
    ensures Lower(ZFill(LStrip0x(Lower(app)), 64)) == ZFill(LStrip0x(Lower(app)), 64)
  {
    AddressWordOf(app, a);
    StripKeepsValue(app, a);
    ToHexIsLower(Zeros(WORD - |a|) + a);
  }

  lemma {:induction false} NumberTextIsLower(n: nat)
    requires InWord(n)
    ensures Lower(ZFill(NatHex(n), 64)) == ZFill(NatHex(n), 64)
  {
    NatDigits(n);
    ToHexIsLower(Word(n));
  }

  lemma {:induction false} LowerBehind(a: string, b: string, c: string, d: string)
    requires Lower(a) == a && Lower(b) == b && Lower(c) == c
    ensures Lower(a + b + c + d) == a + b + c + Lower(d)
  {
  }

  lemma {:induction false} HashTextLower(claimHash: string, h: seq<byte>)
    requires Spells(claimHash, h)
    ensures Lower(ZFill(LStrip0x(claimHash), 64)) == ZFill(LStrip0x(Lower(claimHash)), 64)
  {
    SpellsLower(claimHash, h);
    LowerLStrip(claimHash);
  }

  lemma {:induction false} ToHexIsLower(bs: seq<byte>)
    ensures Lower(ToHex(bs)) == ToHex(bs)
  {
    ToHexDigits(bs);
    FromHexToHex(bs);
    LowerIsToHex(ToHex(bs));
  }

  lemma {:induction false} DecodeIgnoresCase(ts: seq<Type>, s: string)
    requires |s| >= 2 && s[..2] == "0x"
    ensures DecodeCallHex(ts, Lower(s)) == DecodeCallHex(ts, s)
  {
    assert Lower(s)[..2] == "0x";
    LowerOfTail(s, 2);
    FromHexLower(s[2..]);
  }

  lemma ClaimPrefix(app: string, lastBlock: nat, claimHash: string)
    ensures var text := EncodeSubmitClaim(app, lastBlock, claimHash); |text| >= 2 && text[..2] == "0x"
  {}

  lemma LoweredClaimFaithful(app: string, lastBlock: nat, claimHash: string, a: seq<byte>, h: seq<byte>)
    requires Names(app, a) && lastBlock < Pow256(WORD) && Spells(claimHash, h) && |h| <= WORD
    ensures Faithful(Ok(Lower(EncodeSubmitClaim(app, lastBlock, claimHash))), SUBMIT_CLAIM,
                     [VAddress(a), VUint256(lastBlock), VBytes32(Zeros(WORD - |h|) + h)])
  {
    assert InWord(lastBlock) by { UintWordOf(lastBlock); }
    assert Spells(Lower(claimHash), h) by { SpellsLower(claimHash, h); }
    assert Lower(Lower(claimHash)) == Lower(claimHash);
    SubmitClaimLower(app, lastBlock, claimHash, a, h);
    SubmitLowerClaim(app, lastBlock, Lower(claimHash), a, h);
  }

  /** submitClaim calldata is, up to letter case, the ABI encoding of (application, last block, claim hash), and
      the decoder gets exactly these back, for a claim hash of up to 32 bytes in any letter case. */
  lemma SubmitClaimFaithful(app: string, lastBlock: nat, claimHash: string, a: seq<byte>, h: seq<byte>)
    requires Names(app, a) && lastBlock < Pow256(WORD) && Spells(claimHash, h) && |h| <= WORD
    ensures var vs := [VAddress(a), VUint256(lastBlock), VBytes32(Zeros(WORD - |h|) + h)];
      && Faithful(Ok(Lower(EncodeSubmitClaim(app, lastBlock, claimHash))), SUBMIT_CLAIM, vs)
      && DecodeCallHex(TypesOf(vs), EncodeSubmitClaim(app, lastBlock, claimHash)) == Some((SUBMIT_CLAIM, vs))
  {
    var vs := [VAddress(a), VUint256(lastBlock), VBytes32(Zeros(WORD - |h|) + h)];
    var text := EncodeSubmitClaim(app, lastBlock, claimHash);
    assert Faithful(Ok(Lower(text)), SUBMIT_CLAIM, vs) by { LoweredClaimFaithful(app, lastBlock, claimHash, a, h); }
    ClaimPrefix(app, lastBlock, claimHash);
    DecodeIgnoresCase(TypesOf(vs), text);
  }

  lemma {:induction false} ThreeStaticFaithful(selector: seq<byte>, x: Value, y: Value, z: Value,
                                               w: seq<byte>, u: seq<byte>, h: seq<byte>)
    requires |selector| == 4 && Words3(x, y, z, w, u, h)
    ensures Faithful(Ok("0x" + ToHex(selector) + ToHex(w) + ToHex(u) + ToHex(h)), selector, [x, y, z])
  {
    var vs := [x, y, z];
    ThreeWordsCall(selector, w, u, h);
    assert Slots(vs) == [Static(w), Static(u), Static(h)];
    LayStatic3(w, u, h);
    FaithfulIf(selector, vs, w + u + h);
  }

  lemma SubmitClaimSelector()
    ensures "0x" + ToHex(SUBMIT_CLAIM) == "0x6470af00"
  {
    SelectorDigits(0x64, 0x70, 0xaf, 0x00);
  }

  // ---- Structured test payloads ----

  lemma LayOne(s: Slot)
    requires s.Valid()
    ensures AllValid([s]) && Lay([s]) == s.Head(32) + s.Tail()
  {
    HeadsCons(s, [], 32);
    assert [s] == [s] + [];
  }

  lemma OneStaticRecovers(v: Value)
    requires Admissible(v) && !v.VBytes?
    ensures Decode([TypeOf(v)], SlotOf(v).word) == Some([v])
  {
    LayOne(SlotOf(v));
    assert Slots([v]) == [SlotOf(v)];
    assert Encode([v]) == SlotOf(v).word;
    RoundTrip([v]);
    assert TypesOf([v]) == [TypeOf(v)];
  }

  /** The structured number payload is the ABI encoding of its value. */
  lemma StructuredUintFaithful(n: nat)
    requires n < Pow256(WORD)
    ensures Decode([TUint256], StructuredUint(n)) == Some([VUint256(n)])
  {
    UintWordOf(n);
    OneStaticRecovers(VUint256(n));
  }

  /** The structured address payload is the ABI encoding of the address. */
  lemma StructuredAddressFaithful(a: seq<byte>)
    requires |a| == 20
    ensures Decode([TAddress], StructuredAddress(a)) == Some([VAddress(a)])
  {
    OneStaticRecovers(VAddress(a));
  }

  /** The structured string payload is the ABI encoding of its text. */
  lemma StructuredStringFaithful(text: seq<byte>)
    requires Fits([VBytes(text)])
    ensures Decode([TBytes], StructuredString(text)) == Some([VBytes(text)])
  {
    var v := VBytes(text);
    assert Admissible([v][0]);
    LayOne(SlotOf(v));
    assert Slots([v]) == [SlotOf(v)];
    PaddingsAgree(|text|);
    Assoc(Word(32), Word(|text|), PadRight(text));
    RoundTrip([v]);
    assert TypesOf([v]) == [TBytes];
  }
}
