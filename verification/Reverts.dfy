/** Words of the ABI and the revert data of an error message. */
module Reverts {
  import opened Basics

  const WORD: nat := 32

  /** The selector of Error(string). */
  const REVERT_SELECTOR: seq<Byte> := [0x08, 0xc3, 0x79, 0xa0]

  function ZeroBytes(n: nat): (r: seq<Byte>)
    ensures |r| == n
  {
    seq(n, _ => 0)
  }

  /** The `k` low bytes of `v`, most significant first. */
  function BigEndian(v: nat, k: nat): (r: seq<Byte>)
    ensures |r| == k
  {
    if k == 0 then [] else BigEndian(v / 256, k - 1) + [v % 256]
  }

  /** The number that bytes stand for, most significant first. */
  function Number(bs: seq<Byte>): nat {
    if bs == [] then 0 else 256 * Number(bs[..|bs| - 1]) + bs[|bs| - 1]
  }

  function Pow256(k: nat): nat {
    if k == 0 then 1 else 256 * Pow256(k - 1)
  }

  /** A 64-bit number as a word. */
  function B32(v: U64): (r: seq<Byte>)
    ensures |r| == WORD
  {
    ZeroBytes(24) + BigEndian(v, 8)
  }

  function RightPad32(data: seq<Byte>): seq<Byte> {
    if |data| % WORD == 0 then data else data + ZeroBytes(WORD - |data| % WORD)
  }

  function EncodeRevert(message: seq<Byte>): seq<Byte>
    requires |message| < TWO_64
  {
    REVERT_SELECTOR + B32(0x20) + B32(|message|) + RightPad32(message)
  }

  // ----- reading -----

  function WordAt(data: seq<Byte>, at: nat): Option<nat> {
    if at + WORD > |data| then None else Some(Number(data[at..at + WORD]))
  }

  /**
   The string argument of revert data, by the formal specification of the encoding in the Contract ABI
   Specification: after the selector the offset of the string, and there its length and its bytes.
   */
  function DecodeRevert(data: seq<Byte>): Option<seq<Byte>> {
    if |data| < 4 || data[..4] != [0x08, 0xc3, 0x79, 0xa0] then None
    else
      var args := data[4..];
      var offset :- WordAt(args, 0);
      var length :- WordAt(args, offset);
      if offset + WORD + length > |args| then None
      else Some(args[offset + WORD..offset + WORD + length])
  }

  // ----- round trip -----

  lemma Div256(v: nat, p: nat)
    requires v < 256 * p
    ensures v / 256 < p && v == 256 * (v / 256) + v % 256
  {
  }

  lemma {:induction false} NumberOfBigEndian(v: nat, k: nat)
    requires v < Pow256(k)
    ensures Number(BigEndian(v, k)) == v
  {
    if k > 0 {
      var bs := BigEndian(v, k);
      assert bs[..k - 1] == BigEndian(v / 256, k - 1);
      Div256(v, Pow256(k - 1));
      NumberOfBigEndian(v / 256, k - 1);
      assert Number(bs) == 256 * Number(bs[..k - 1]) + bs[k - 1];
    }
  }

  lemma {:induction false} NumberPadded(n: nat, bs: seq<Byte>)
    ensures Number(ZeroBytes(n) + bs) == Number(bs)
    decreases n + |bs|
  {
    var all := ZeroBytes(n) + bs;
    if bs != [] {
      assert all[..|all| - 1] == ZeroBytes(n) + bs[..|bs| - 1];
      NumberPadded(n, bs[..|bs| - 1]);
    } else if n > 0 {
      assert all[..|all| - 1] == ZeroBytes(n - 1) + bs;
      NumberPadded(n - 1, bs);
    } else {
      assert all == bs;
    }
  }

  lemma WordReads(v: U64)
    ensures Number(B32(v)) == v
  {
    NumberPadded(24, BigEndian(v, 8));
    assert Pow256(2) == 0x1_0000;
    assert Pow256(4) == 0x1_0000_0000;
    assert Pow256(6) == 0x1_0000_0000_0000;
    assert Pow256(8) == TWO_64;
    NumberOfBigEndian(v, 8);
  }

  function Padding(n: nat): nat {
    (WORD - n % WORD) % WORD
  }

  lemma Padded(data: seq<Byte>)
    ensures RightPad32(data) == data + ZeroBytes(Padding(|data|))
    ensures Padding(|data|) < WORD && (|data| + Padding(|data|)) % WORD == 0
  {
    assert data + ZeroBytes(0) == data;
  }

  /** Revert data is read by its layout. */
  lemma ReadLayout(offset: seq<Byte>, length: seq<Byte>, tail: seq<Byte>, message: seq<Byte>)
    requires |offset| == |length| == WORD && Number(offset) == WORD && Number(length) == |message|
    requires message <= tail
    ensures DecodeRevert(REVERT_SELECTOR + offset + length + tail) == Some(message)
  {
    var data := REVERT_SELECTOR + offset + length + tail;
    var args := data[4..];
    assert data[..4] == REVERT_SELECTOR;
    assert args == offset + length + tail;
    assert args[0..WORD] == offset;
    assert args[WORD..WORD + WORD] == length;
    assert args[WORD + WORD..WORD + WORD + |message|] == message;
  }

  /** Revert round trip: for every message the revert data decodes to it. */
  lemma RevertRoundTrip(message: seq<Byte>)
    requires |message| < TWO_64
    ensures DecodeRevert(EncodeRevert(message)) == Some(message)
  {
    var offset, length, tail := B32(0x20), B32(|message|), RightPad32(message);
    WordReads(0x20);
    WordReads(|message|);
    Padded(message);
    ReadLayout(offset, length, tail, message);
  }

  /** Revert data is a selector and whole words; only zeros follow the message. */
  lemma RevertWords(message: seq<Byte>)
    requires |message| < TWO_64
    ensures (|EncodeRevert(message)| - 4) % WORD == 0
    ensures EncodeRevert(message)[4 + 2 * WORD..] == message + ZeroBytes(Padding(|message|))
    ensures Padding(|message|) < WORD
  {
    Padded(message);
    var head := REVERT_SELECTOR + B32(0x20) + B32(|message|);
    assert |head| == 4 + 2 * WORD;
    assert (head + RightPad32(message))[|head|..] == RightPad32(message);
  }
}
