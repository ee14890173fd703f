/** The encodings a wallet key is stored in, and the checksummed form of its address. */
module Wallet {
  import opened Outcomes
  import Amount

  type Byte = b: int | 0 <= b < 256

  // ---------- hex, as section 8 of RFC 4648 has it ----------

  function HexDigit(n: int): (c: char)
    requires 0 <= n < 16
    ensures '0' <= c <= '9' || 'a' <= c <= 'f'
  {
    if n < 10 then '0' + n as char else 'a' + (n - 10) as char
  }

  /** Reading takes letters of either case. */
  function HexValue(c: char): Option<int> {
    if '0' <= c <= '9' then Some(c as int - '0' as int)
    else if 'a' <= c <= 'f' then Some(c as int - 'a' as int + 10)
    else if 'A' <= c <= 'F' then Some(c as int - 'A' as int + 10)
    else None
  }

  function HexEncode(bytes: seq<Byte>): (s: string)
    ensures |s| == 2 * |bytes|
    ensures forall i | 0 <= i < |s| :: '0' <= s[i] <= '9' || 'a' <= s[i] <= 'f'
  {
    if bytes == [] then "" else [HexDigit(bytes[0] / 16), HexDigit(bytes[0] % 16)] + HexEncode(bytes[1..])
  }

  /** An odd length, or a character that is no hex digit, is refused. */
  function HexDecode(s: string): Option<seq<Byte>> {
    if s == "" then Some([])
    else if |s| == 1 then None
    else
      var high, low, rest := HexValue(s[0]), HexValue(s[1]), HexDecode(s[2..]);
      if high.None? || low.None? || rest.None? then None
      else Some([high.value * 16 + low.value] + rest.value)
  }

  lemma {:induction false} HexRoundTrips(bytes: seq<Byte>)
    ensures HexDecode(HexEncode(bytes)) == Some(bytes)
  {
    if bytes != [] {
      HexRoundTrips(bytes[1..]);
      assert HexEncode(bytes)[2..] == HexEncode(bytes[1..]);
      assert bytes == [bytes[0]] + bytes[1..];
    }
  }

  // ---------- base64, as section 4 of RFC 4648 has it ----------

  function Char64(n: int): (c: char)
    requires 0 <= n < 64
  {
    if n < 26 then 'A' + n as char
    else if n < 52 then 'a' + (n - 26) as char
    else if n < 62 then '0' + (n - 52) as char
    else if n == 62 then '+' else '/'
  }

  function Value64(c: char): (n: Option<int>)
    ensures n.Some? ==> 0 <= n.value < 64
  {
    if 'A' <= c <= 'Z' then Some(c as int - 'A' as int)
    else if 'a' <= c <= 'z' then Some(c as int - 'a' as int + 26)
    else if '0' <= c <= '9' then Some(c as int - '0' as int + 52)
    else if c == '+' then Some(62) else if c == '/' then Some(63) else None
  }

  predicate In64(c: char) {
    c == '=' || Value64(c).Some?
  }

  lemma Char64Reads(n: int)
    requires 0 <= n < 64
    ensures Value64(Char64(n)) == Some(n) && Char64(n) != '=' && In64(Char64(n))
  {
  }

  /** Four groups of six bits hold three bytes. */
  lemma SixesHoldBytes(a: Byte, b: Byte, c: Byte)
    ensures var w, x, y, z := a / 4, a % 4 * 16 + b / 16, b % 16 * 4 + c / 64, c % 64;
      && 0 <= w < 64 && 0 <= x < 64 && 0 <= y < 64 && 0 <= z < 64
      && w * 4 + x / 16 == a && x % 16 * 16 + y / 4 == b && y % 4 * 64 + z == c
  {
  }

  /** The group that three bytes are written as. */
  function Group(a: Byte, b: Byte, c: Byte): string {
    SixesHoldBytes(a, b, c);
    [Char64(a / 4), Char64(a % 4 * 16 + b / 16), Char64(b % 16 * 4 + c / 64), Char64(c % 64)]
  }

  /** Three bytes in four characters, the last group filled up with equals signs. */
  function Encode64(bytes: seq<Byte>): string {
    if bytes == [] then ""
    else
      var a := bytes[0];
      if |bytes| == 1 then [Char64(a / 4), Char64(a % 4 * 16), '=', '=']
      else
        var b := bytes[1];
        if |bytes| == 2 then [Char64(a / 4), Char64(a % 4 * 16 + b / 16), Char64(b % 16 * 4), '=']
        else Group(a, b, bytes[2]) + Encode64(bytes[3..])
  }

  /** Line ends are skipped. */
  function WithoutLineEnds(s: string): string {
    if s == "" then ""
    else if s[0] == '\n' || s[0] == '\r' then WithoutLineEnds(s[1..])
    else [s[0]] + WithoutLineEnds(s[1..])
  }

  /** Groups of four; only the last may be filled up. */
  function DecodeGroups(s: string): Option<seq<Byte>> {
    if s == "" then Some([])
    else if |s| < 4 || Value64(s[0]).None? || Value64(s[1]).None? then None
    else
      var a, b := Value64(s[0]).value, Value64(s[1]).value;
      var first: Byte := a * 4 + b / 16;
      if s[2] == '=' && s[3] == '=' then (if |s| == 4 then Some([first]) else None)
      else if Value64(s[2]).None? then None
      else
        var c := Value64(s[2]).value;
        var second: Byte := b % 16 * 16 + c / 4;
        if s[3] == '=' then (if |s| == 4 then Some([first, second]) else None)
        else if Value64(s[3]).None? then None
        else
          var third: Byte := c % 4 * 64 + Value64(s[3]).value;
          var rest := DecodeGroups(s[4..]);
          if rest.None? then None else Some([first, second, third] + rest.value)
  }

  function Decode64(s: string): Option<seq<Byte>> {
    DecodeGroups(WithoutLineEnds(s))
  }

  lemma {:induction false} Encode64In(bytes: seq<Byte>)
    ensures forall i | 0 <= i < |Encode64(bytes)| :: In64(Encode64(bytes)[i])
    decreases |bytes|
  {
    if bytes != [] {
      Char64Reads(bytes[0] / 4);
      if |bytes| == 1 {
        Char64Reads(bytes[0] % 4 * 16);
      } else if |bytes| == 2 {
        Char64Reads(bytes[0] % 4 * 16 + bytes[1] / 16);
        Char64Reads(bytes[1] % 16 * 4);
      } else {
        Char64Reads(bytes[0] % 4 * 16 + bytes[1] / 16);
        Char64Reads(bytes[1] % 16 * 4 + bytes[2] / 64);
        Char64Reads(bytes[2] % 64);
        Encode64In(bytes[3..]);
      }
    }
  }

  lemma {:induction false} NoLineEnds(s: string)
    requires forall i | 0 <= i < |s| :: In64(s[i])
    ensures WithoutLineEnds(s) == s
  {
    if s != "" {
      assert In64(s[0]);
      NoLineEnds(s[1..]);
      assert s == [s[0]] + s[1..];
    }
  }

  /** A full group decodes to its three bytes, before whatever follows. */
  lemma FullGroup(a: Byte, b: Byte, c: Byte, rest: string)
    requires DecodeGroups(rest).Some?
    ensures DecodeGroups(Group(a, b, c) + rest)
      == Some([a, b, c] + DecodeGroups(rest).value)
  {
    hide Char64, Value64;
    SixesHoldBytes(a, b, c);
    Char64Reads(a / 4);
    Char64Reads(a % 4 * 16 + b / 16);
    Char64Reads(b % 16 * 4 + c / 64);
    Char64Reads(c % 64);
    var text := Group(a, b, c) + rest;
    assert text[4..] == rest;
  }

  lemma LastByte(a: Byte)
    ensures DecodeGroups([Char64(a / 4), Char64(a % 4 * 16), '=', '=']) == Some([a])
  {
    hide Char64, Value64;
    SixesHoldBytes(a, 0, 0);
    Char64Reads(a / 4);
    Char64Reads(a % 4 * 16);
  }

  lemma LastTwoBytes(a: Byte, b: Byte)
    ensures DecodeGroups([Char64(a / 4), Char64(a % 4 * 16 + b / 16), Char64(b % 16 * 4), '=']) == Some([a, b])
  {
    hide Char64, Value64;
    SixesHoldBytes(a, b, 0);
    Char64Reads(a / 4);
    Char64Reads(a % 4 * 16 + b / 16);
    Char64Reads(b % 16 * 4);
  }

  lemma ShortRoundTrip(bytes: seq<Byte>)
    requires 0 < |bytes| < 3
    ensures DecodeGroups(Encode64(bytes)) == Some(bytes)
  {
    hide Char64, DecodeGroups;
    if |bytes| == 1 {
      LastByte(bytes[0]);
      assert bytes == [bytes[0]];
    } else {
      LastTwoBytes(bytes[0], bytes[1]);
      assert bytes == [bytes[0], bytes[1]];
    }
  }

  lemma FirstGroup(bytes: seq<Byte>)
    requires 3 <= |bytes|
    ensures Encode64(bytes) == Group(bytes[0], bytes[1], bytes[2]) + Encode64(bytes[3..])
  {
    hide Char64;
  }

  lemma GroupRoundTrip(bytes: seq<Byte>)
    requires 3 <= |bytes| && DecodeGroups(Encode64(bytes[3..])) == Some(bytes[3..])
    ensures DecodeGroups(Encode64(bytes)) == Some(bytes)
  {
    hide Char64, DecodeGroups, Encode64, Group;
    FirstGroup(bytes);
    FullGroup(bytes[0], bytes[1], bytes[2], Encode64(bytes[3..]));
    assert bytes == [bytes[0], bytes[1], bytes[2]] + bytes[3..];
  }

  lemma {:induction false} GroupsRoundTrip(bytes: seq<Byte>)
    ensures DecodeGroups(Encode64(bytes)) == Some(bytes)
    decreases |bytes|
  {
    if bytes == [] {
    } else if |bytes| < 3 {
      ShortRoundTrip(bytes);
    } else {
      GroupsRoundTrip(bytes[3..]);
      hide Encode64, DecodeGroups;
      GroupRoundTrip(bytes);
    }
  }

  lemma Base64RoundTrips(bytes: seq<Byte>)
    ensures Decode64(Encode64(bytes)) == Some(bytes)
  {
    Encode64In(bytes);
    NoLineEnds(Encode64(bytes));
    GroupsRoundTrip(bytes);
  }

  // ---------- the three encodings of a key ----------

  /** The curve, as far as it matters here: which byte strings are private keys, and what
      address belongs to one. */
  datatype Curve = Curve(valid: seq<Byte> -> bool, address: seq<Byte> -> seq<Byte>)

  datatype EvmWallet = EvmWallet(key: seq<Byte>, address: seq<Byte>)

  function FromKey(curve: Curve, key: seq<Byte>): Option<EvmWallet> {
    if curve.valid(key) then Some(EvmWallet(key, curve.address(key))) else None
  }

  function FromKeyHex(curve: Curve, text: string): Option<EvmWallet> {
    var key := HexDecode(text);
    if key.None? then None else FromKey(curve, key.value)
  }

  function RawHex(w: EvmWallet): string {
    HexEncode(w.key)
  }

  function Hex0x(w: EvmWallet): string {
    "0x" + RawHex(w)
  }

  function ParseRawHex(curve: Curve, stored: string): Option<EvmWallet> {
    FromKeyHex(curve, Amount.TrimSpace(stored))
  }

  function TrimPrefix(s: string, prefix: string): string {
    if prefix <= s then s[|prefix|..] else s
  }

  function ParseHex0x(curve: Curve, stored: string): Option<EvmWallet> {
    FromKeyHex(curve, TrimPrefix(Amount.TrimSpace(stored), "0x"))
  }

  const BEFORE := "{\"Type\":\"delegated\",\"PrivateKey\":\""
  const AFTER := "\"}"

  predicate IsText(bytes: seq<Byte>) {
    forall i | 0 <= i < |bytes| :: bytes[i] < 128
  }

  function Bytes(text: string): (bytes: seq<Byte>)
    requires forall i | 0 <= i < |text| :: text[i] as int < 128
    ensures |bytes| == |text| && IsText(bytes)
    ensures forall i | 0 <= i < |text| :: bytes[i] == text[i] as int
  {
    if text == "" then [] else [text[0] as int] + Bytes(text[1..])
  }

  function TextOf(bytes: seq<Byte>): (text: string)
    requires IsText(bytes)
    ensures |text| == |bytes|
    ensures forall i | 0 <= i < |text| :: text[i] as int == bytes[i]
  {
    if bytes == [] then "" else [bytes[0] as char] + TextOf(bytes[1..])
  }

  lemma Encode64Ascii(key: seq<Byte>)
    ensures forall i | 0 <= i < |Encode64(key)| :: Encode64(key)[i] as int < 128
  {
    Encode64In(key);
    hide Encode64;
    assert forall i | 0 <= i < |Encode64(key)| :: In64(Encode64(key)[i]);
  }

  /** The wallet file: JSON, with the key in base64. */
  function WalletJson(key: seq<Byte>): (text: string)
    ensures forall i | 0 <= i < |text| :: text[i] as int < 128
  {
    Encode64Ascii(key);
    BEFORE + Encode64(key) + AFTER
  }

  /** Reads JSON in the form that is written. */
  function ReadJson(text: string): Option<string> {
    if BEFORE <= text && |BEFORE| + |AFTER| <= |text| && text[|text| - |AFTER|..] == AFTER
       && '"' !in text[|BEFORE|..|text| - |AFTER|] && '\\' !in text[|BEFORE|..|text| - |AFTER|]
    then Some(text[|BEFORE|..|text| - |AFTER|]) else None
  }

  function PiriWalletHex(w: EvmWallet): string {
    HexEncode(Bytes(WalletJson(w.key)))
  }

  function ParsePiriHex(curve: Curve, stored: string): Option<EvmWallet> {
    var raw := HexDecode(Amount.TrimSpace(stored));
    if raw.None? || !IsText(raw.value) then None else
    var inner := ReadJson(TextOf(raw.value));
    if inner.None? then None else
    var key := Decode64(inner.value);
    if key.None? then None else FromKey(curve, key.value)
  }

  lemma HexHasNoSpace(bytes: seq<Byte>, front: string)
    requires front == "" || front == "0x"
    ensures Amount.TrimSpace(front + HexEncode(bytes)) == front + HexEncode(bytes)
  {
    var text := front + HexEncode(bytes);
    hide HexEncode;
    if text == "" {
    } else {
      Amount.TrimKeeps(text);
    }
  }

  lemma {:induction false} TextOfBytes(text: string)
    requires forall i | 0 <= i < |text| :: text[i] as int < 128
    ensures TextOf(Bytes(text)) == text
  {
  }

  lemma WalletJsonReads(key: seq<Byte>)
    ensures ReadJson(WalletJson(key)) == Some(Encode64(key))
  {
    Encode64In(key);
    var text, inner := WalletJson(key), Encode64(key);
    assert text == BEFORE + inner + AFTER;
    assert text[|BEFORE|..|text| - |AFTER|] == inner;
    assert text[|text| - |AFTER|..] == AFTER;
    assert forall i | 0 <= i < |inner| :: In64(inner[i]) && inner[i] != '"' && inner[i] != '\\';
  }

  /** Every valid key survives each of its encodings, and its address with it. */
  lemma KeysRoundTrip(curve: Curve, key: seq<Byte>)
    requires curve.valid(key)
    ensures var w := EvmWallet(key, curve.address(key));
      && ParseRawHex(curve, RawHex(w)) == Some(w)
      && ParseHex0x(curve, Hex0x(w)) == Some(w)
      && ParsePiriHex(curve, PiriWalletHex(w)) == Some(w)
  {
    hide HexEncode, HexDecode, Amount.TrimSpace, ParsePiriHex, PiriWalletHex;
    HexHasNoSpace(key, "");
    HexHasNoSpace(key, "0x");
    HexRoundTrips(key);
    assert "" + HexEncode(key) == HexEncode(key);
    assert ("0x" + HexEncode(key))[2..] == HexEncode(key);
    PiriRoundTrips(curve, key);
  }

  lemma PiriRoundTrips(curve: Curve, key: seq<Byte>)
    requires curve.valid(key)
    ensures var w := EvmWallet(key, curve.address(key)); ParsePiriHex(curve, PiriWalletHex(w)) == Some(w)
  {
    hide HexEncode, HexDecode, Encode64, Decode64, Bytes, TextOf, ReadJson, Amount.TrimSpace;
    var raw := Bytes(WalletJson(key));
    HexHasNoSpace(raw, "");
    assert "" + HexEncode(raw) == HexEncode(raw);
    HexRoundTrips(raw);
    TextOfBytes(WalletJson(key));
    WalletJsonReads(key);
    Base64RoundTrips(key);
  }

  /** So no two keys are stored alike, in any of the encodings. */
  lemma EncodingsInjective(a: seq<Byte>, b: seq<Byte>)
    ensures HexEncode(a) == HexEncode(b) ==> a == b
    ensures Encode64(a) == Encode64(b) ==> a == b
    ensures HexEncode(Bytes(WalletJson(a))) == HexEncode(Bytes(WalletJson(b))) ==> a == b
  {
    HexRoundTrips(a);
    HexRoundTrips(b);
    Base64RoundTrips(a);
    Base64RoundTrips(b);
    HexRoundTrips(Bytes(WalletJson(a)));
    HexRoundTrips(Bytes(WalletJson(b)));
    TextOfBytes(WalletJson(a));
    TextOfBytes(WalletJson(b));
    WalletJsonReads(a);
    WalletJsonReads(b);
  }

  // ---------- the checksummed address ----------

  function LowerChar(c: char): char {
    if 'A' <= c <= 'Z' then c - 'A' + 'a' else c
  }

  function Lower(s: string): (t: string)
    ensures |t| == |s|
    ensures forall i | 0 <= i < |s| :: t[i] == LowerChar(s[i])
  {
    if s == "" then "" else [LowerChar(s[0])] + Lower(s[1..])
  }

  /** A letter is raised where the hash has a high digit in its place. */
  function Cased(c: char, h: char): char {
    if '0' <= c <= '9' then c else if 'a' <= c <= 'f' && '8' <= h then c - 'a' + 'A' else c
  }

  /** The checksummed form of ERC-55, for any hash whose hex is long enough. */
  function Checksummed(addr: seq<Byte>, keccak: string -> seq<Byte>): string
    requires |addr| <= |keccak(HexEncode(addr))|
  {
    var lower, hash := HexEncode(addr), HexEncode(keccak(HexEncode(addr)));
    "0x" + seq(|lower|, i requires 0 <= i < |lower| => Cased(lower[i], hash[i]))
  }

  /** toChecksumAddress. */
  method ToChecksumAddress(addr: seq<Byte>, keccak: string -> seq<Byte>) returns (out: string)
    requires |addr| <= |keccak(HexEncode(addr))|
    ensures out == Checksummed(addr, keccak)
    ensures Lower(out) == "0x" + HexEncode(addr)
  {
    hide HexEncode;
    var lower := HexEncode(addr);
    var hash := HexEncode(keccak(lower));
    out := "0x";
    for i := 0 to |lower|
      invariant |out| == 2 + i && out[..2] == "0x"
      invariant forall k | 0 <= k < i :: out[2 + k] == Cased(lower[k], hash[k])
    {
      var c := lower[i];
      if '0' <= c <= '9' {
        out := out + [c];
      } else if '8' <= hash[i] {
        out := out + [c - 'a' + 'A'];
      } else {
        out := out + [c];
      }
    }
    ghost var text := Checksummed(addr, keccak);
    forall i | 0 <= i < |out| ensures out[i] == text[i] {
      assert i < 2 ==> out[i] == out[..2][i];
      assert 2 <= i ==> out[2 + (i - 2)] == Cased(lower[i - 2], hash[i - 2]);
    }
    assert out == text;
    LowerIsPlain(addr, keccak);
  }

  /** Whatever the hash: in lower case a checksummed address is the plain one, two addresses
      never have the same, and checksumming what it reads back as changes nothing. */
  lemma ChecksumIsStable(a: seq<Byte>, b: seq<Byte>, keccak: string -> seq<Byte>)
    requires |a| <= |keccak(HexEncode(a))| && |b| <= |keccak(HexEncode(b))|
    ensures Lower(Checksummed(a, keccak)) == "0x" + HexEncode(a)
    ensures HexDecode(Checksummed(a, keccak)[2..]) == Some(a)
    ensures Checksummed(a, keccak) == Checksummed(b, keccak) <==> a == b
  {
    LowerIsPlain(a, keccak);
    LowerIsPlain(b, keccak);
    assert ("0x" + HexEncode(a))[2..] == HexEncode(a) && ("0x" + HexEncode(b))[2..] == HexEncode(b);
    HexRoundTrips(a);
    HexRoundTrips(b);
    var text := Checksummed(a, keccak)[2..];
    SameValue(HexEncode(a), text);
  }

  lemma CasedReads(c: char, h: char)
    requires '0' <= c <= '9' || 'a' <= c <= 'f'
    ensures LowerChar(Cased(c, h)) == c && HexValue(Cased(c, h)) == HexValue(c)
  {
  }

  lemma LowerIsPlain(a: seq<Byte>, keccak: string -> seq<Byte>)
    requires |a| <= |keccak(HexEncode(a))|
    ensures Lower(Checksummed(a, keccak)) == "0x" + HexEncode(a)
    ensures |Checksummed(a, keccak)| == 2 + |HexEncode(a)|
    ensures forall i | 0 <= i < |HexEncode(a)| :: HexValue(Checksummed(a, keccak)[2 + i]) == HexValue(HexEncode(a)[i])
  {
    hide HexEncode, HexValue, Cased, Lower;
    var text, lower, hash := Checksummed(a, keccak), HexEncode(a), HexEncode(keccak(HexEncode(a)));
    forall i | 0 <= i < |lower|
      ensures LowerChar(text[2 + i]) == lower[i] && HexValue(text[2 + i]) == HexValue(lower[i])
    {
      assert text[2 + i] == Cased(lower[i], hash[i]);
      CasedReads(lower[i], hash[i]);
    }
    forall i | 0 <= i < |text| ensures Lower(text)[i] == ("0x" + lower)[i] {
      assert i < 2 ==> text[i] == "0x"[i];
      assert 2 <= i ==> LowerChar(text[2 + (i - 2)]) == lower[i - 2];
    }
  }

  /** Hex digits of either case read as the same bytes. */
  lemma {:induction false} SameValue(s: string, t: string)
    requires |s| == |t| && forall i | 0 <= i < |s| :: HexValue(s[i]) == HexValue(t[i])
    ensures HexDecode(s) == HexDecode(t)
    decreases |s|
  {
    if |s| >= 2 {
      SameValue(s[2..], t[2..]);
    }
  }
}
