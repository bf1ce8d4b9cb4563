/**
 How strict the reconciliation's decoders are (src/psv/reconciliation.py). They are documented to take exact
 hex and canonical quantities, but bytes.fromhex skips blanks and int(s, 16) takes blanks, underscores and a
 sign. This module gives the inputs that slip through, and the exact condition under which none does.
 */
module StrictDecoding {
  import opened Common
  import opened Numerals
  import opened PythonText
  import opened Json
  import opened Evidence
  import opened Reconciliation
  import C = Chain

  // ---------------------------------------------------------------- what the documentation promises

  /** "Fixed-size 0x-prefixed hex". */
  predicate FixedHex(value: Json, size: nat) {
    value.Str? && |value.s| == 2 + 2 * size && value.s[..2] == "0x" && AllDigits(value.s[2..], 16)
  }

  /** "A canonical JSON-RPC quantity constrained to uint256". */
  predicate CanonicalQuantity(value: Json) {
    && value.Str? && |value.s| > 2 && value.s[..2] == "0x" && AllDigits(value.s[2..], 16)
    && (|value.s| > 3 ==> value.s[2] != '0')
    && Value(value.s[2..], 16) <= UINT256_MAX
  }

  predicate BlankFree(s: string) { forall i :: 0 <= i < |s| ==> !IsSpace(s[i]) }

  /** Text without the characters Python's lenient readings let through. */
  predicate Plain(s: string) {
    BlankFree(s) && '_' !in s && '+' !in s && '-' !in s
  }

  // ---------------------------------------------------------------- fixed-size hex

  lemma {:induction false} FromHexOfBlankFree(s: string)
    requires BlankFree(s)
    ensures FromHexAccepts(s) <==> |s| % 2 == 0 && AllDigits(s, 16)
    decreases |s|
  {
    if |s| >= 2 {
      FromHexOfBlankFree(s[2..]);
      assert s == [s[0], s[1]] + s[2..];
      assert AllDigits(s, 16) <==> IsDigit(s[0], 16) && IsDigit(s[1], 16) && AllDigits(s[2..], 16);
    }
  }

  lemma DigitsArePlain(s: string)
    requires AllDigits(s, 16)
    ensures Plain(s)
  {
    forall i | 0 <= i < |s| ensures !IsSpace(s[i]) && s[i] != '_' && s[i] != '+' && s[i] != '-' {
      DigitsAreNotSpace(s[i]);
    }
  }

  /** _exact_hex keeps its promise on a text exactly when it is rejected or carries no blank behind its prefix. */
  lemma ExactHexPromise(value: Json, size: nat)
    ensures FixedHex(value, size) ==> ExactHex(value, size) == Some(Lower(value.s))
    ensures ExactHex(value, size).Some? ==> (FixedHex(value, size) <==> BlankFree(value.s[2..]))
    ensures value.Str? && |value.s| >= 2 && BlankFree(value.s[2..]) ==> (ExactHex(value, size).Some? <==> FixedHex(value, size))
  {
    hide Lower, FromHexAccepts;
    if value.Str? && |value.s| >= 2 {
      var body := value.s[2..];
      assert StartsWith(value.s, "0x") <==> value.s[..2] == "0x";
      if AllDigits(body, 16) {
        DigitsArePlain(body);
      }
      if BlankFree(body) {
        FromHexOfBlankFree(body);
      }
    }
  }

  /** Two blanks pass as one byte. */
  lemma BlanksPassAsHex()
    ensures ExactHex(Str("0x  "), 1) == Some("0x  ") && !FixedHex(Str("0x  "), 1)
  {
    var s := "0x  ";
    assert s[2..] == "  " && s[2..][1..] == " " && s[2..][1..][1..] == "";
    assert FromHexAccepts(s[2..]);
    assert Lower(s) == s;
    assert !IsDigit(s[2..][0], 16);
  }

  // ---------------------------------------------------------------- quantities

  lemma GroupedWithoutUnderscore(s: string)
    requires '_' !in s
    ensures Grouped(s, 16) <==> s != "" && AllDigits(s, 16)
  {
    assert forall i :: 0 <= i < |s| ==> s[i] != '_';
  }

  /** Plain text behind the prefix is read digit by digit. */
  lemma IntOfPlainText(s: string)
    requires Plain(s) && s != "" && (|s| > 1 ==> s[0] != '0')
    ensures IntOfHex(s).Some? <==> AllDigits(s, 16)
    ensures AllDigits(s, 16) ==> IntOfHex(s) == Some(Value(s, 16))
  {
    assert Strip(s) == s;
    assert s[0] in s;
    assert !StartsWith(s, "-") && !StartsWith(s, "+") && !StartsWith(s, "0x") && !StartsWith(s, "0X");
    GroupedWithoutUnderscore(s);
    WithoutNothing(s, '_');
  }

  /** _quantity keeps its promise on a text exactly when it is rejected or carries no blank, underscore or sign. */
  lemma QuantityPromise(value: Json)
    ensures CanonicalQuantity(value) ==> Quantity(value) == Some(Value(value.s[2..], 16))
    ensures Quantity(value).Some? ==> (CanonicalQuantity(value) <==> Plain(value.s[2..]))
    ensures value.Str? && |value.s| >= 2 && Plain(value.s[2..]) ==> (Quantity(value).Some? <==> CanonicalQuantity(value))
  {
    hide IntOfHex, Value;
    if value.Str? && |value.s| > 2 {
      var body := value.s[2..];
      assert StartsWith(value.s, "0x") <==> value.s[..2] == "0x";
      if AllDigits(body, 16) {
        DigitsArePlain(body);
      }
      if Plain(body) && (|body| > 1 ==> body[0] != '0') {
        IntOfPlainText(body);
      }
    }
  }

  /** An underscore, a sign and a blank each pass as part of a quantity. */
  lemma LooseQuantitiesPass()
    ensures Quantity(Str("0x1_0")) == Some(16) && !CanonicalQuantity(Str("0x1_0"))
    ensures Quantity(Str("0x+1")) == Some(1) && !CanonicalQuantity(Str("0x+1"))
    ensures Quantity(Str("0x 1")) == Some(1) && !CanonicalQuantity(Str("0x 1"))
  {
    LooseUnderscore();
    LooseSign();
    LooseBlank();
  }

  lemma ValueOfOne()
    ensures Value("1", 16) == 1 && Value("10", 16) == 16
  {
    assert "1"[..0] == "" && "10"[..1] == "1";
  }

  lemma LooseUnderscore()
    ensures Quantity(Str("0x1_0")) == Some(16) && !CanonicalQuantity(Str("0x1_0"))
  {
    var s, body := "0x1_0", "1_0";
    assert s[2..] == body && Strip(body) == body;
    assert body[1..] == "_0" && body[1..][1..] == "0" && body[1..][1..][1..] == "";
    assert Without(body, '_') == "10";
    ValueOfOne();
    assert Grouped(body, 16);
    assert !IsDigit(s[2..][1], 16);
  }

  lemma LooseSign()
    ensures Quantity(Str("0x+1")) == Some(1) && !CanonicalQuantity(Str("0x+1"))
  {
    var s, body := "0x+1", "+1";
    assert s[2..] == body && Strip(body) == body && body[1..] == "1";
    assert StartsWith(body, "+") && !StartsWith(body, "-");
    assert "1"[1..] == "" && Without("1", '_') == "1";
    ValueOfOne();
    assert Grouped("1", 16);
    assert !IsDigit(s[2..][0], 16);
  }

  lemma LooseBlank()
    ensures Quantity(Str("0x 1")) == Some(1) && !CanonicalQuantity(Str("0x 1"))
  {
    var s, body := "0x 1", " 1";
    assert s[2..] == body && body[1..] == "1";
    assert Strip(body) == "1";
    assert "1"[1..] == "" && Without("1", '_') == "1";
    ValueOfOne();
    assert Grouped("1", 16);
    assert !IsDigit(s[2..][0], 16);
  }

  // ---------------------------------------------------------------- whole logs

  /** An indexed address: twenty bytes behind twelve zero bytes. */
  predicate PaddedAddress(topic: Json) {
    FixedHex(topic, 32) && forall i :: 2 <= i < 26 ==> topic.s[i] == '0'
  }

  /** A complete Transfer log, field by field, as the documentation has it. */
  predicate StrictTransfer(log: RawLog, chainId: int) {
    && chainId > 0
    && log.topics.Arr? && |log.topics.items| == 3
    && FixedHex(log.topics.items[0], 32) && Lower(log.topics.items[0].s) == TOPIC_TRANSFER
    && PaddedAddress(log.topics.items[1]) && PaddedAddress(log.topics.items[2])
    && FixedHex(log.data, 32) && log.removed.Bool?
    && FixedHex(log.address, 20) && FixedHex(log.transactionHash, 32) && FixedHex(log.blockHash, 32)
    && CanonicalQuantity(log.logIndex) && CanonicalQuantity(log.blockNumber)
  }

  predicate PlainText(value: Json) { value.Str? && |value.s| >= 2 ==> Plain(value.s[2..]) }

  /** No text of the log carries a blank, an underscore or a sign behind its prefix. */
  predicate PlainLog(log: RawLog) {
    && PlainText(log.address) && PlainText(log.data) && PlainText(log.transactionHash) && PlainText(log.blockHash)
    && PlainText(log.logIndex) && PlainText(log.blockNumber)
    && (log.topics.Arr? ==> forall i :: 0 <= i < |log.topics.items| ==> PlainText(log.topics.items[i]))
  }

  lemma PlainFixedHex(value: Json, size: nat)
    requires PlainText(value)
    ensures ExactHex(value, size).Some? <==> FixedHex(value, size)
    ensures FixedHex(value, size) ==> ExactHex(value, size) == Some(Lower(value.s))
  {
    hide ExactHex, Lower;
    ExactHexPromise(value, size);
    if !value.Str? || |value.s| < 2 {
      ShortTextIsRejected(value, size);
    }
  }

  lemma ShortTextIsRejected(value: Json, size: nat)
    requires !value.Str? || |value.s| < 2
    ensures ExactHex(value, size).None? && Quantity(value).None?
  {
  }

  lemma PlainQuantity(value: Json)
    requires PlainText(value)
    ensures Quantity(value).Some? <==> CanonicalQuantity(value)
  {
    hide Quantity, Value;
    QuantityPromise(value);
    if !value.Str? || |value.s| < 2 {
      ShortTextIsRejected(value, 0);
    }
  }

  lemma ZerosLower(topic: Json)
    requires FixedHex(topic, 32)
    ensures Lower(topic.s)[2..26] == seq(24, _ => '0') <==> PaddedAddress(topic)
  {
    var t := Lower(topic.s)[2..26];
    assert forall i :: 2 <= i < 26 ==> (topic.s[i] == '0' <==> t[i - 2] == '0') by {
      assert forall i :: 2 <= i < 26 ==> t[i - 2] == LowerChar(topic.s[i]);
      assert forall c: char :: LowerChar(c) == '0' <==> c == '0';
    }
    if t == seq(24, _ => '0') {
      assert forall i :: 0 <= i < 24 ==> t[i] == '0';
    }
  }

  lemma PlainAddress(topic: Json)
    requires PlainText(topic)
    ensures AddressOfTopic(topic).Some? <==> PaddedAddress(topic)
  {
    PlainFixedHex(topic, 32);
    if FixedHex(topic, 32) {
      ZerosLower(topic);
      var exact := Lower(topic.s);
      var tail := "0x" + exact[26..];
      assert AllDigits(tail[2..], 16) by {
        assert forall i :: 0 <= i < 40 ==> tail[2..][i] == LowerChar(topic.s[2..][i + 24]);
      }
      ExactHexPromise(Str(tail), 20);
    }
    hide ExactHex, Lower;
  }

  lemma FixedDataValue(data: Json)
    requires FixedHex(data, 32)
    ensures IntOfHex(Lower(data.s)) == Some(Value(data.s[2..], 16)) && Value(data.s[2..], 16) <= UINT256_MAX
  {
    var digits := data.s[2..];
    assert data.s == "0x" + digits;
    LowerConcat("0x", digits);
    assert Lower("0x") == "0x";
    assert AllDigits(Lower(digits), 16);
    IntOfPlainHex(Lower(digits));
    ValueLower(digits);
    ValueBound(digits, 16);
    PowersOfSixteen();
  }

  /** On plain logs the decoder accepts exactly the complete Transfer logs of the documentation. */
  lemma PlainLogsDecodeStrictly(log: RawLog, chainId: int)
    requires PlainLog(log)
    ensures DecodeTransferLog(log, chainId).Some? <==> StrictTransfer(log, chainId)
  {
    hide ExactHex, Quantity, AddressOfTopic, IntOfHex, Value, Lower, FixedHex, CanonicalQuantity, PaddedAddress, PlainText;
    PlainFixedHex(log.address, 20);
    PlainFixedHex(log.transactionHash, 32);
    PlainFixedHex(log.blockHash, 32);
    PlainFixedHex(log.data, 32);
    PlainQuantity(log.logIndex);
    PlainQuantity(log.blockNumber);
    if log.topics.Arr? && |log.topics.items| == 3 {
      PlainFixedHex(log.topics.items[0], 32);
      PlainAddress(log.topics.items[1]);
      PlainAddress(log.topics.items[2]);
    }
    if FixedHex(log.data, 32) {
      FixedDataValue(log.data);
    }
  }

  lemma FixedIsPlain(value: Json, size: nat)
    requires FixedHex(value, size) || CanonicalQuantity(value)
    ensures PlainText(value)
  {
    DigitsArePlain(value.s[2..]);
    hide Value;
  }

  lemma StrictIsPlain(log: RawLog, chainId: int)
    requires StrictTransfer(log, chainId)
    ensures PlainLog(log)
  {
    hide FixedHex, CanonicalQuantity, PlainText, Lower;
    FixedIsPlain(log.address, 20);
    FixedIsPlain(log.transactionHash, 32);
    FixedIsPlain(log.blockHash, 32);
    FixedIsPlain(log.data, 32);
    FixedIsPlain(log.logIndex, 0);
    FixedIsPlain(log.blockNumber, 0);
    forall i | 0 <= i < 3 ensures PlainText(log.topics.items[i]) {
      assert FixedHex(log.topics.items[i], 32) by {
        if i == 0 {
          assert FixedHex(log.topics.items[0], 32);
        } else {
          assert PaddedAddress(log.topics.items[i]);
        }
      }
      FixedIsPlain(log.topics.items[i], 32);
    }
  }

  /** "Without coercion": every complete log decodes, and a log that decodes is complete exactly when it is plain. */
  lemma DecodePromise(log: RawLog, chainId: int)
    ensures StrictTransfer(log, chainId) ==> DecodeTransferLog(log, chainId).Some?
    ensures DecodeTransferLog(log, chainId).Some? ==> (StrictTransfer(log, chainId) <==> PlainLog(log))
  {
    hide DecodeTransferLog, StrictTransfer, PlainLog;
    if StrictTransfer(log, chainId) {
      StrictIsPlain(log, chainId);
    }
    if PlainLog(log) {
      PlainLogsDecodeStrictly(log, chainId);
    }
  }

  /** On plain logs the reconciliation's malformed verdict is exactly an incomplete Transfer log. */
  lemma MalformedMeansIncomplete(log: RawLog, scope: Scope)
    requires PlainLog(log)
    ensures Observe(log, scope) == Err(Malformed) <==> !StrictTransfer(log, scope.chainId)
  {
    hide DecodeTransferLog, StrictTransfer, PlainLog;
    PlainLogsDecodeStrictly(log, scope.chainId);
  }

  // ---------------------------------------------------------------- a log that slips through

  /** An amount whose last byte is replaced by two blanks. */
  function BlankedData(value: Uint256): string { "0x" + Padded(value, 16, 64)[..62] + "  " }

  lemma {:induction false} FromHexThenBlanks(s: string)
    requires AllDigits(s, 16) && |s| % 2 == 0
    ensures FromHexAccepts(s + "  ")
    decreases |s|
  {
    var t := s + "  ";
    if s == "" {
      assert t[1..][1..] == "";
      assert FromHexAccepts(t[1..]);
    } else {
      DigitsAreNotSpace(s[0]);
      assert t[2..] == s[2..] + "  ";
      FromHexThenBlanks(s[2..]);
    }
  }

  lemma DropTwoDigits(value: Uint256)
    ensures Padded(value, 16, 64)[..62] == Padded(value / 256, 16, 62)
  {
    var half := Padded(value / 16, 16, 63);
    assert Padded(value, 16, 64) == half + [Digit(value % 16)];
    assert half == Padded(value / 16 / 16, 16, 62) + [Digit(value / 16 % 16)];
    assert value / 16 / 16 == value / 256;
    hide Padded;
    assert (half + [Digit(value % 16)])[..62] == half[..62];
  }

  lemma LeadingDigits(value: Uint256)
    ensures AllDigits(Padded(value, 16, 64)[..62], 16) && Value(Padded(value, 16, 64)[..62], 16) == value / 256
    ensures Lower(Padded(value, 16, 64)[..62]) == Padded(value, 16, 64)[..62]
  {
    DropTwoDigits(value);
    PaddedShape(value / 256, 16, 62);
    PowersOfSixteen();
    PowAdd(16, 62, 2);
    assert Pow(16, 2) == 256;
    hide Padded, Value, Lower, AllDigits, Pow;
    PaddedValue(value / 256, 16, 62);
  }

  lemma BlankedDataReads(value: Uint256)
    ensures ExactHex(Str(BlankedData(value)), 32) == Some(BlankedData(value))
    ensures IntOfHex(BlankedData(value)) == Some(value / 256)
  {
    hide Padded, Value, IntOfHex;
    LeadingDigits(value);
    var digits := Padded(value, 16, 64)[..62];
    var text := BlankedData(value);
    assert text[2..] == digits + "  ";
    FromHexThenBlanks(digits);
    hide FromHexAccepts;
    LowerBlanked(digits);
    IntOfPlainHex(digits);
    TrailingBlanks("0x" + digits);
  }

  lemma LowerBlanked(digits: string)
    requires Lower(digits) == digits
    ensures Lower("0x" + digits + "  ") == "0x" + digits + "  "
  {
    LowerConcat("0x" + digits, "  ");
    LowerConcat("0x", digits);
    assert Lower("0x") == "0x" && Lower("  ") == "  ";
  }

  /** Trailing blanks do not change what int(s, 16) reads. */
  lemma TrailingBlanks(s: string)
    ensures IntOfHex(s + "  ") == IntOfHex(s)
  {
    StripLeftThenBlanks(s);
  }

  lemma {:induction false} StripLeftThenBlanks(s: string)
    ensures Strip(s + "  ") == Strip(s)
    decreases |s|
  {
    var t := s + "  ";
    if s == "" {
      assert t[1..][1..] == "";
      assert StripLeft(t[1..]) == "";
    } else if IsSpace(s[0]) {
      assert t[1..] == s[1..] + "  ";
      StripLeftThenBlanks(s[1..]);
    } else {
      assert t[..|t| - 1] == s + " " && (s + " ")[..|s|] == s;
      assert StripRight(t) == StripRight(s + " ") == StripRight(s);
    }
  }

  /**
   Every Transfer log of the token, with the last byte of its amount blanked out, still decodes: as a
   different credit, of the amount over 256.
   */
  lemma BlankedAmountDecodes(token: Address, chainId: int, l: C.LogEntry)
    requires chainId > 0 && l.event.Transfer? && l.block <= UINT256_MAX && l.index <= UINT256_MAX
    ensures var log := EncodeLog(token, l).(data := Str(BlankedData(l.event.value)));
              && DecodeTransferLog(log, chainId) == Some(CreditOf(token, chainId, l).(value := l.event.value / 256))
              && !StrictTransfer(log, chainId)
  {
    BlankedDataReads(l.event.value);
    BlankedDataIsNotHex(l.event.value);
    hide BlankedData, HexWord, HexAddress, HexQuantity, ExactHex, Quantity, AddressOfTopic, IntOfHex, Value, FixedHex, CanonicalQuantity,
         PaddedAddress;
    ExactHexOfAddress(token);
    ExactHexOfWord(l.tx);
    ExactHexOfWord(l.blockHash);
    ExactHexOfWord(TRANSFER_HASH);
    QuantityOfHex(l.block);
    QuantityOfHex(l.index);
    AddressOfTopicOfAddress(l.event.from);
    AddressOfTopicOfAddress(l.event.to);
  }

  lemma BlankedDataIsNotHex(value: Uint256)
    ensures !FixedHex(Str(BlankedData(value)), 32)
  {
    hide Padded;
    var text := BlankedData(value);
    assert text[2..][62] == ' ' && !IsDigit(' ', 16);
  }
}
