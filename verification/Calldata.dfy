/**
 EIP-3009 calldata (src/psv/chain.py): the encoder, an independent decoder by the Solidity Contract ABI
 Specification, "Formal Specification of the Encoding", and the round trip between them.
 */
module Calldata {
  import opened Common
  import opened Numerals
  import opened Rails

  /** The arguments of TokenView.settle_calldata. */
  datatype Settlement = Settlement(
    from: string, to: string, value: int, validAfter: int, validBefore: int, nonce: string, signature: string)

  const SELECTOR: string := "cf092995"

  // ---------------------------------------------------------------- the encoder

  /** Left-pad an exact address to an ABI word. */
  function SlotAddress(address: string): string
    requires |address| >= 2
  {
    var digits := Lower(address[2..]);
    seq(if |digits| < 64 then 64 - |digits| else 0, _ => '0') + digits
  }

  function SlotUint(value: nat): string { Padded(value, 16, 64) }

  function SlotBytes32(value: string): string
    requires |value| >= 2
  {
    Lower(value[2..])
  }

  /** Every check the encoder makes before it writes. */
  predicate Encodable(a: Settlement) {
    && IsHexText(a.from, 20) && IsHexText(a.to, 20)
    && Value(a.from[2..], 16) != 0 && Value(a.to[2..], 16) != 0
    && 1 <= a.value <= UINT256_MAX
    && 0 <= a.validAfter <= UINT256_MAX && 1 <= a.validBefore <= UINT256_MAX && a.validAfter < a.validBefore
    && IsHexText(a.nonce, 32) && IsHexText(a.signature, 65)
  }

  /** settle_calldata; None where it raises. */
  function SettleCalldata(a: Settlement): Option<string> {
    if !Encodable(a) then None
    else
      var signature := Lower(a.signature[2..]);
      var head := SELECTOR + SlotAddress(a.from) + SlotAddress(a.to) + SlotUint(a.value) + SlotUint(a.validAfter)
                  + SlotUint(a.validBefore) + SlotBytes32(a.nonce) + SlotUint(7 * 32);
      var tail := SlotUint(65) + signature + seq(3 * 64 - |signature|, _ => '0');
      Some("0x" + head + tail)
  }

  // ---------------------------------------------------------------- decoding by the ABI rules

  /** The i-th 32-byte word of the argument block, as text. */
  function Word(args: string, i: nat): string
    requires (i + 1) * 64 <= |args|
  {
    args[i * 64..(i + 1) * 64]
  }

  datatype Decoded = Decoded(
    from: nat, to: nat, value: nat, validAfter: nat, validBefore: nat, nonce: string, signature: string)

  /**
   The arguments of (address, address, uint256, uint256, uint256, bytes32, bytes): six static words, then the
   offset of the dynamic bytes, at which a length word precedes the content, zero-padded to whole words.
   */
  function Decode(data: string): Option<Decoded> {
    if |data| < 2 + 8 + 7 * 64 || data[..2] != "0x" || data[2..10] != SELECTOR || !AllDigits(data[2..], 16) then None
    else
      var args := data[10..];
      var offset := Value(Word(args, 6), 16);
      if offset % 32 != 0 || (offset + 32) * 2 > |args| then None
      else
        var length := Value(args[offset * 2..(offset + 32) * 2], 16);
        var start := (offset + 32) * 2;
        var padded := (length + 31) / 32 * 32;
        if start + padded * 2 != |args| then None
        else if Value(Word(args, 0), 16) > ADDRESS_MAX || Value(Word(args, 1), 16) > ADDRESS_MAX then None
        else if Value(args[start + length * 2..], 16) != 0 then None
        else
          Some(Decoded(
            Value(Word(args, 0), 16), Value(Word(args, 1), 16), Value(Word(args, 2), 16), Value(Word(args, 3), 16),
            Value(Word(args, 4), 16), Word(args, 5), args[start..start + length * 2]))
  }

  // ---------------------------------------------------------------- the layout

  /** The encoded arguments, word by word. */
  function Args(a: Settlement): string
    requires Encodable(a)
  {
    SlotAddress(a.from) + SlotAddress(a.to) + SlotUint(a.value) + SlotUint(a.validAfter)
    + SlotUint(a.validBefore) + SlotBytes32(a.nonce) + SlotUint(224) + SlotUint(65)
    + Lower(a.signature[2..]) + seq(62, _ => '0')
  }

  lemma SlotLengths(a: Settlement)
    requires Encodable(a)
    ensures |SlotAddress(a.from)| == 64 && |SlotAddress(a.to)| == 64 && |SlotBytes32(a.nonce)| == 64 && |Lower(a.signature[2..])| == 130
    ensures |Args(a)| == 11 * 64
  {
  }

  lemma Regroup(x: string, c: string, w0: string, w1: string, w2: string, w3: string, w4: string, w5: string, w6: string, w7: string,
                s: string, z: string)
    ensures x + (c + w0 + w1 + w2 + w3 + w4 + w5 + w6) + (w7 + s + z) == x + c + (w0 + w1 + w2 + w3 + w4 + w5 + w6 + w7 + s + z)
  {
  }

  lemma CalldataIsArgs(a: Settlement)
    requires Encodable(a)
    ensures SettleCalldata(a) == Some("0x" + SELECTOR + Args(a))
  {
    SlotLengths(a);
    hide SlotAddress, SlotUint, SlotBytes32, Encodable;
    Regroup("0x", SELECTOR, SlotAddress(a.from), SlotAddress(a.to), SlotUint(a.value), SlotUint(a.validAfter),
            SlotUint(a.validBefore), SlotBytes32(a.nonce), SlotUint(224), SlotUint(65), Lower(a.signature[2..]), seq(62, _ => '0'));
  }

  /** Slicing a concatenation of nine full words and the padded content. */
  lemma Words(w0: string, w1: string, w2: string, w3: string, w4: string, w5: string, w6: string, w7: string, s: string, z: string)
    requires |w0| == |w1| == |w2| == |w3| == |w4| == |w5| == |w6| == |w7| == 64 && |s| == 130
    ensures var args := w0 + w1 + w2 + w3 + w4 + w5 + w6 + w7 + s + z;
              && args[0..64] == w0 && args[64..128] == w1 && args[128..192] == w2 && args[192..256] == w3
              && args[256..320] == w4 && args[320..384] == w5 && args[384..448] == w6 && args[448..512] == w7
              && args[512..642] == s && args[642..] == z
  {
  }

  lemma ArgsWords(a: Settlement)
    requires Encodable(a)
    ensures |Args(a)| == 704
    ensures Word(Args(a), 0) == SlotAddress(a.from) && Word(Args(a), 1) == SlotAddress(a.to)
    ensures Word(Args(a), 2) == SlotUint(a.value) && Word(Args(a), 3) == SlotUint(a.validAfter)
    ensures Word(Args(a), 4) == SlotUint(a.validBefore) && Word(Args(a), 5) == SlotBytes32(a.nonce)
    ensures Word(Args(a), 6) == SlotUint(224) && Args(a)[448..512] == SlotUint(65)
    ensures Args(a)[512..642] == Lower(a.signature[2..]) && Args(a)[642..] == seq(62, _ => '0')
  {
    SlotLengths(a);
    hide SlotAddress, SlotUint, SlotBytes32, Padded;
    Words(SlotAddress(a.from), SlotAddress(a.to), SlotUint(a.value), SlotUint(a.validAfter), SlotUint(a.validBefore),
          SlotBytes32(a.nonce), SlotUint(224), SlotUint(65), Lower(a.signature[2..]), seq(62, _ => '0'));
  }

  // ---------------------------------------------------------------- reading the words back

  lemma ValuePrefixZeros(n: nat, s: string)
    ensures Value(seq(n, _ => '0') + s, 16) == Value(s, 16)
  {
    var z := seq(n, _ => '0');
    ValueConcat(z, s, 16);
    ValueZeros(z, 16);
  }

  lemma SlotAddressValue(address: string)
    requires IsHexText(address, 20)
    ensures Value(SlotAddress(address), 16) == Value(address[2..], 16) <= ADDRESS_MAX
    ensures AllDigits(SlotAddress(address), 16)
  {
    PowersOfSixteen();
    ValuePrefixZeros(24, Lower(address[2..]));
    ValueLower(address[2..]);
    ValueBound(address[2..], 16);
    LowerDigits(address[2..]);
  }

  lemma LowerDigits(s: string)
    requires AllDigits(s, 16)
    ensures AllDigits(Lower(s), 16)
  {
  }

  lemma SlotUintValue(n: nat)
    requires n <= UINT256_MAX
    ensures Value(SlotUint(n), 16) == n && AllDigits(SlotUint(n), 16)
  {
    PowersOfSixteen();
    PaddedValue(n, 16, 64);
    PaddedShape(n, 16, 64);
  }

  lemma DigitsConcat(s: string, t: string)
    requires AllDigits(s, 16) && AllDigits(t, 16)
    ensures AllDigits(s + t, 16)
  {
  }

  lemma DigitsOfWords(w0: string, w1: string, w2: string, w3: string, w4: string, w5: string, w6: string, w7: string, s: string, z: string)
    requires AllDigits(w0, 16) && AllDigits(w1, 16) && AllDigits(w2, 16) && AllDigits(w3, 16) && AllDigits(w4, 16)
    requires AllDigits(w5, 16) && AllDigits(w6, 16) && AllDigits(w7, 16) && AllDigits(s, 16) && AllDigits(z, 16)
    ensures AllDigits(w0 + w1 + w2 + w3 + w4 + w5 + w6 + w7 + s + z, 16)
  {
    hide AllDigits;
    DigitsConcat(w0, w1);
    DigitsConcat(w0 + w1, w2);
    DigitsConcat(w0 + w1 + w2, w3);
    DigitsConcat(w0 + w1 + w2 + w3, w4);
    DigitsConcat(w0 + w1 + w2 + w3 + w4, w5);
    DigitsConcat(w0 + w1 + w2 + w3 + w4 + w5, w6);
    DigitsConcat(w0 + w1 + w2 + w3 + w4 + w5 + w6, w7);
    DigitsConcat(w0 + w1 + w2 + w3 + w4 + w5 + w6 + w7, s);
    DigitsConcat(w0 + w1 + w2 + w3 + w4 + w5 + w6 + w7 + s, z);
  }

  lemma ArgsDigits(a: Settlement)
    requires Encodable(a)
    ensures AllDigits(SELECTOR + Args(a), 16)
  {
    LowerDigits(a.nonce[2..]);
    LowerDigits(a.signature[2..]);
    assert AllDigits(seq(62, _ => '0'), 16);
    assert AllDigits(SELECTOR, 16);
    hide SlotAddress, SlotUint, AllDigits;
    SlotAddressValue(a.from);
    SlotAddressValue(a.to);
    SlotUintValue(a.value);
    SlotUintValue(a.validAfter);
    SlotUintValue(a.validBefore);
    SlotUintValue(224);
    SlotUintValue(65);
    DigitsOfWords(SlotAddress(a.from), SlotAddress(a.to), SlotUint(a.value), SlotUint(a.validAfter), SlotUint(a.validBefore),
                  SlotBytes32(a.nonce), SlotUint(224), SlotUint(65), Lower(a.signature[2..]), seq(62, _ => '0'));
    DigitsConcat(SELECTOR, Args(a));
  }

  /** What the arguments mean on the wire: numbers, and hex up to letter case. */
  function Meaning(a: Settlement): Decoded
    requires Encodable(a)
  {
    Decoded(Value(a.from[2..], 16), Value(a.to[2..], 16), a.value, a.validAfter, a.validBefore, Lower(a.nonce[2..]), Lower(a.signature[2..]))
  }

  /** The decoder on a block whose offset and length words say 224 and 65. */
  lemma DecodeLayout(args: string)
    requires |args| == 704 && AllDigits(SELECTOR + args, 16)
    requires Value(Word(args, 6), 16) == 224 && Value(args[448..512], 16) == 65 && Value(args[642..], 16) == 0
    requires Value(Word(args, 0), 16) <= ADDRESS_MAX && Value(Word(args, 1), 16) <= ADDRESS_MAX
    ensures Decode("0x" + SELECTOR + args)
         == Some(Decoded(Value(Word(args, 0), 16), Value(Word(args, 1), 16), Value(Word(args, 2), 16), Value(Word(args, 3), 16),
                         Value(Word(args, 4), 16), Word(args, 5), args[512..642]))
  {
    hide Value, AllDigits, Word;
    var data := "0x" + SELECTOR + args;
    assert data[..2] == "0x" && data[2..10] == SELECTOR && data[10..] == args && data[2..] == SELECTOR + args;
  }

  lemma DecodeArgs(a: Settlement)
    requires Encodable(a)
    ensures Decode("0x" + SELECTOR + Args(a)) == Some(Meaning(a))
  {
    hide SlotAddress, SlotUint, Args, Value, AllDigits, Decode, Word, Lower;
    ArgsDigits(a);
    ArgsWords(a);
    SlotAddressValue(a.from);
    SlotAddressValue(a.to);
    SlotUintValue(a.value);
    SlotUintValue(a.validAfter);
    SlotUintValue(a.validBefore);
    SlotUintValue(224);
    SlotUintValue(65);
    ValueZeros(seq(62, _ => '0'), 16);
    DecodeLayout(Args(a));
    assert Word(Args(a), 5) == Lower(a.nonce[2..]);
  }

  /** Decoding the calldata returns all seven arguments up to hex case. */
  lemma CalldataRoundTrip(a: Settlement)
    requires Encodable(a)
    ensures SettleCalldata(a).Some? && Decode(SettleCalldata(a).value) == Some(Meaning(a))
  {
    SlotLengths(a);
    CalldataIsArgs(a);
    DecodeArgs(a);
  }

  /** The encoding has one length, and its dynamic offset points at the word that holds the signature's length. */
  lemma CalldataLayout(a: Settlement)
    requires Encodable(a)
    ensures SettleCalldata(a).Some? && |SettleCalldata(a).value| == 2 + 2 * (4 + 11 * 32)
    ensures var args := SettleCalldata(a).value[10..];
              var offset := Value(Word(args, 6), 16);
              offset == 7 * 32 && Value(args[offset * 2..(offset + 32) * 2], 16) == 65
  {
    SlotLengths(a);
    CalldataIsArgs(a);
    ArgsWords(a);
    SlotUintValue(224);
    SlotUintValue(65);
    assert SettleCalldata(a).value[10..] == Args(a);
    hide SlotAddress, SlotUint, Padded, Args, Encodable;
  }

  /** Equal calldata means equal arguments, up to hex case. */
  lemma CalldataInjective(a: Settlement, b: Settlement)
    requires Encodable(a) && Encodable(b)
    ensures SettleCalldata(a) == SettleCalldata(b)
       <==> && Lower(a.from) == Lower(b.from) && Lower(a.to) == Lower(b.to)
            && a.value == b.value && a.validAfter == b.validAfter && a.validBefore == b.validBefore
            && Lower(a.nonce) == Lower(b.nonce) && Lower(a.signature) == Lower(b.signature)
  {
    LowerOfHex(a.from, b.from, 20);
    LowerOfHex(a.to, b.to, 20);
    LowerOfHex(a.nonce, b.nonce, 32);
    LowerOfHex(a.signature, b.signature, 65);
    CalldataRoundTrip(a);
    CalldataRoundTrip(b);
    CalldataIsArgs(a);
    CalldataIsArgs(b);
    if SettleCalldata(a) == SettleCalldata(b) {
      assert Meaning(a) == Meaning(b);
    }
    hide Decode, Padded, Value, SettleCalldata;
  }

  /** Equal-length hex texts agree up to case exactly when their digits do, exactly when they name one number. */
  lemma LowerOfHex(s: string, t: string, size: nat)
    requires IsHexText(s, size) && IsHexText(t, size)
    ensures Lower(s) == Lower(t) <==> Lower(s[2..]) == Lower(t[2..])
    ensures Lower(s) == Lower(t) <==> Value(s[2..], 16) == Value(t[2..], 16)
  {
    PaddedOfValue(s[2..], 16);
    PaddedOfValue(t[2..], 16);
    ValueLower(s[2..]);
    ValueLower(t[2..]);
    LowerConcat("0x", s[2..]);
    LowerConcat("0x", t[2..]);
    assert s == "0x" + s[2..] && t == "0x" + t[2..];
    assert Lower(s)[2..] == Lower(s[2..]) && Lower(t)[2..] == Lower(t[2..]);
  }

  /** It is an encoding of transferWithAuthorization with a bytes signature, and refused are exactly arguments the token could not take. */
  lemma EncodedExactlyWhen(a: Settlement)
    ensures SettleCalldata(a).Some?
       <==> && IsHexText(a.from, 20) && IsHexText(a.to, 20) && IsHexText(a.nonce, 32) && IsHexText(a.signature, 65)
            && !ZeroAddress(a.from) && !ZeroAddress(a.to)
            && 0 < a.value <= UINT256_MAX && 0 <= a.validAfter < a.validBefore <= UINT256_MAX
    ensures SettleCalldata(a).Some? ==> |SettleCalldata(a).value| >= 10 && SettleCalldata(a).value[..10] == "0xcf092995"
  {
    hide Args, Value, IsHexText, SlotAddress, SlotUint, SlotBytes32;
    NonZeroAddress(a.from);
    NonZeroAddress(a.to);
    hide ZeroAddress;
    if Encodable(a) {
      CalldataIsArgs(a);
      hide SettleCalldata;
      assert ("0x" + SELECTOR + Args(a))[..10] == "0x" + SELECTOR;
    }
  }

  predicate ZeroAddress(address: string) { address == "0x" + seq(40, _ => '0') }

  lemma NonZeroAddress(address: string)
    ensures IsHexText(address, 20) ==> |address| >= 2 && (Value(address[2..], 16) == 0 <==> ZeroAddress(address))
  {
    if IsHexText(address, 20) {
      ZeroDigits(address[2..]);
      assert ("0x" + seq(40, _ => '0'))[2..] == seq(40, _ => '0');
      assert address == address[..2] + address[2..];
    }
    hide Value;
  }

  lemma {:induction false} ZeroDigits(s: string)
    requires AllDigits(s, 16)
    ensures Value(s, 16) == 0 <==> s == seq(|s|, _ => '0')
  {
    if s != "" {
      var init, c := s[..|s| - 1], s[|s| - 1];
      ZeroDigits(init);
      assert s == init + [c] && IsDigit(c, 16);
      if Value(s, 16) == 0 {
        assert DigitValue(c) == 0 && c == '0';
        assert s == seq(|s|, _ => '0');
      }
      if s == seq(|s|, _ => '0') {
        assert init == seq(|init|, _ => '0');
      }
    }
  }
}
