/** packages/auth/src/providers/cognito/utils/AuthUtils.ts: the hex tables and
    hex codec, the base64url preparation of the SRP secret block, the timestamp
    and signature-buffer layout of the password-verifier round, and this file's
    own mapping of challenges and service errors to sign-in results. */
module AuthUtils {
  import opened Wrappers
  import opened Text
  import opened AuthTypes

  // ===========================================================================
  // Hex tables

  /** The reference two-character lower-case hex rendering of a byte. */
  function HexPair(b: uint8): string {
    [DigitChar(b as int / 16), DigitChar(b as int % 16)]
  }

  predicate IsLowerHexPair(s: string) {
    |s| == 2 && IsDigitOf(s[0], 16) && IsDigitOf(s[1], 16)
  }

  function PairValue(s: string): nat
    requires |s| == 2
  {
    16 * DigitValue(s[0]) + DigitValue(s[1])
  }

  lemma HexPairValue(b: uint8)
    ensures IsLowerHexPair(HexPair(b)) && PairValue(HexPair(b)) == b as int
  {
    DigitCharValue(b as int / 16);
    DigitCharValue(b as int % 16);
  }

  lemma PairHexValue(s: string)
    requires IsLowerHexPair(s)
    ensures PairValue(s) < 256 && HexPair(PairValue(s) as uint8) == s
  {
    var v := PairValue(s);
    assert v / 16 == DigitValue(s[0]) && v % 16 == DigitValue(s[1]);
  }

  /** SHORT_TO_HEX: byte value to its hex pair. */
  const ShortToHex: seq<string> := HexPairTable()

  function HexPairTable(): seq<string> {
    seq(256, i requires 0 <= i < 256 => HexPair(i as uint8))
  }

  /** HEX_TO_SHORT: hex pair to its byte value. */
  const HexToShort: map<string, uint8> :=
    map s | s in HexPairs :: PairValue(s) as uint8

  /** The 256 lower-case hex pairs. */
  const HexPairs: set<string> := set i | 0 <= i < 256 :: HexPair(i as uint8)

  /** The two tables are mutually inverse between the bytes and the lower-case hex pairs. */
  lemma HexTablesInverse()
    ensures |ShortToHex| == 256
    ensures forall b: uint8 :: ShortToHex[b] in HexToShort && HexToShort[ShortToHex[b]] == b
    ensures forall s :: s in HexToShort <==> IsLowerHexPair(s)
    ensures forall s :: s in HexToShort ==> ShortToHex[HexToShort[s]] == s
  {
    forall s | IsLowerHexPair(s) ensures s in HexToShort {
      PairHexValue(s);
      var i := PairValue(s);
      assert HexPair(i as uint8) == s;
    }
    forall s | s in HexToShort ensures IsLowerHexPair(s) && ShortToHex[HexToShort[s]] == s {
      var i :| 0 <= i < 256 && HexPair(i as uint8) == s;
      HexPairValue(i as uint8);
    }
    forall b: uint8 ensures ShortToHex[b] in HexToShort && HexToShort[ShortToHex[b]] == b {
      HexPairValue(b);
      assert ShortToHex[b] == HexPair(b as int as uint8);
    }
  }

  /** The padded `i.toString(16).toLowerCase()` of the table loop is the reference pair. */
  lemma {:induction false} PaddedBase16(i: nat)
    requires i < 256
    ensures (var e := ToLower(Digits(i, 16)); if |e| == 1 then "0" + e else e) == HexPair(i as uint8)
  {
    DigitCharValue(i / 16);
    DigitCharValue(i % 16);
    if i < 16 {
      assert Digits(i, 16) == [DigitChar(i)];
    } else {
      assert Digits(i / 16, 16) == [DigitChar(i / 16)];
      assert Digits(i, 16) == [DigitChar(i / 16), DigitChar(i % 16)];
    }
  }

  /** The module-load loop that fills SHORT_TO_HEX and HEX_TO_SHORT. */
  method BuildHexTables() returns (shortToHex: seq<string>, hexToShort: map<string, uint8>)
    ensures shortToHex == ShortToHex
    ensures hexToShort == HexToShort
  {
    shortToHex, hexToShort := [], map[];
    for i := 0 to 256
      invariant shortToHex == ShortToHex[..i]
      invariant forall s :: s in hexToShort <==> IsLowerHexPair(s) && PairValue(s) < i
      invariant forall s :: s in hexToShort ==> hexToShort[s] as int == PairValue(s)
    {
      var encodedByte := ToLower(Digits(i, 16));
      if |encodedByte| == 1 {
        encodedByte := "0" + encodedByte;
      }
      PaddedBase16(i);
      HexPairValue(i as uint8);
      forall s | IsLowerHexPair(s) && PairValue(s) == i ensures s == encodedByte {
        PairHexValue(s);
      }
      shortToHex := shortToHex + [encodedByte];
      hexToShort := hexToShort[encodedByte := i as uint8];
    }
    HexTablesInverse();
    forall s | s in HexToShort ensures hexToShort[s] == HexToShort[s] {
      HexPairValue(HexToShort[s]);
    }
  }

  // ===========================================================================
  // Hex codec

  datatype HexError =
    | OddLength                             // "Hex encoded strings must have an even number length"
    | UnrecognizedSequence(encodedByte: string) // "Cannot decode unrecognized sequence <pair> as hexadecimal"

  /** The k-th two-character group of s. */
  function Pair(s: string, k: nat): string
    requires 2 * k + 2 <= |s|
  {
    s[2 * k..2 * k + 2]
  }

  function PrependAll(p: seq<uint8>, r: Result<seq<uint8>, HexError>): Result<seq<uint8>, HexError> {
    match r
    case Success(t) => Success(p + t)
    case Failure(e) => Failure(e)
  }

  /** What `fromHex` returns or throws, group by group from the left. */
  function HexDecode(encoded: string): (r: Result<seq<uint8>, HexError>)
    decreases |encoded|
    ensures r.Success? ==> 2 * |r.value| == |encoded|
    ensures |encoded| % 2 != 0 ==> r == Failure(OddLength)
  {
    if |encoded| % 2 != 0 then Failure(OddLength)
    else if encoded == [] then Success([])
    else
      var encodedByte := ToLower(encoded[..2]);
      if encodedByte in HexToShort then PrependAll([HexToShort[encodedByte]], HexDecode(encoded[2..]))
      else Failure(UnrecognizedSequence(encodedByte))
  }

  /** What `toHex` returns. */
  function HexEncode(bytes: seq<uint8>): string
    decreases |bytes|
  {
    if bytes == [] then "" else HexEncode(bytes[..|bytes| - 1]) + ShortToHex[bytes[|bytes| - 1]]
  }

  /** An even-length string decodes exactly when every group, lower-cased, is a
      hex pair; the k-th byte is the value of the k-th group. */
  lemma {:induction false} HexDecodeGroups(s: string)
    requires |s| % 2 == 0
    ensures HexDecode(s).Success? <==> forall k :: 0 <= k < |s| / 2 ==> ToLower(Pair(s, k)) in HexToShort
    ensures HexDecode(s).Success? ==>
      forall k :: 0 <= k < |s| / 2 ==> HexDecode(s).value[k] == HexToShort[ToLower(Pair(s, k))]
  {
    if s != [] {
      var t := s[2..];
      HexDecodeGroups(t);
      HexDecodeUnfold(s);
      var head := ToLower(Pair(s, 0));
      if head in HexToShort && HexDecode(t).Success? {
        var v := HexDecode(s).value;
        assert v == [HexToShort[head]] + HexDecode(t).value;
        forall k | 0 < k < |s| / 2
          ensures ToLower(Pair(s, k)) in HexToShort && v[k] == HexToShort[ToLower(Pair(s, k))]
        {
          PairShift(s, k - 1);
        }
      } else if head in HexToShort {
        var bad :| 0 <= bad < |t| / 2 && ToLower(Pair(t, bad)) !in HexToShort;
        PairShift(s, bad);
      }
    }
  }

  /** One step of the decoding: the first group, then the rest. */
  lemma HexDecodeUnfold(s: string)
    requires |s| % 2 == 0 && s != []
    ensures var head := ToLower(Pair(s, 0));
      HexDecode(s) == if head in HexToShort then PrependAll([HexToShort[head]], HexDecode(s[2..]))
                      else Failure(UnrecognizedSequence(head))
  {
    assert Pair(s, 0) == s[..2];
  }

  /** The groups of s after its first group are the later groups of s. */
  lemma PairShift(s: string, k: nat)
    requires 2 * k + 4 <= |s|
    ensures Pair(s[2..], k) == Pair(s, k + 1)
  {
  }

  /** `toHex` emits two lower-case characters per byte, the byte's table entry. */
  lemma {:induction false} HexEncodeGroups(bytes: seq<uint8>)
    ensures |HexEncode(bytes)| == 2 * |bytes|
    ensures forall k :: 0 <= k < |bytes| ==> Pair(HexEncode(bytes), k) == HexPair(bytes[k])
  {
    if bytes != [] {
      var init := bytes[..|bytes| - 1];
      HexEncodeGroups(init);
      var e := HexEncode(bytes);
      assert e == HexEncode(init) + HexPair(bytes[|bytes| - 1]);
      forall k | 0 <= k < |bytes| ensures Pair(e, k) == HexPair(bytes[k]) {
        if k < |init| {
          assert Pair(e, k) == Pair(HexEncode(init), k);
        }
      }
    }
  }

  lemma HexPairEntry(b: uint8)
    ensures ToLower(HexPair(b)) == HexPair(b)
    ensures HexPair(b) in HexToShort && HexToShort[HexPair(b)] == b
  {
    HexPairValue(b);
    LowerHexPairUnchanged(HexPair(b));
    assert HexPair(b) in HexPairs by {
      assert HexPair(b as int as uint8) == HexPair(b);
    }
  }

  lemma LowerHexPairUnchanged(s: string)
    requires IsLowerHexPair(s)
    ensures ToLower(s) == s
  {
  }

  /** Decoding what `toHex` printed gives the bytes back. */
  lemma HexRoundTrip(bytes: seq<uint8>)
    ensures HexDecode(HexEncode(bytes)) == Success(bytes)
  {
    var e := HexEncode(bytes);
    HexEncodeGroups(bytes);
    HexDecodeGroups(e);
    forall k | 0 <= k < |bytes| ensures ToLower(Pair(e, k)) in HexToShort && HexToShort[ToLower(Pair(e, k))] == bytes[k] {
      assert Pair(e, k) == HexPair(bytes[k]);
      HexPairEntry(bytes[k]);
    }
    var d := HexDecode(e).value;
    assert |d| == |bytes|;
    assert forall k :: 0 <= k < |d| ==> d[k] == bytes[k];
    assert d == bytes;
  }

  /** Re-encoding what `fromHex` accepted gives the input in lower case. */
  lemma HexLowerRoundTrip(s: string)
    requires HexDecode(s).Success?
    ensures HexEncode(HexDecode(s).value) == ToLower(s)
  {
    var t := HexDecode(s).value;
    var e := HexEncode(t);
    HexDecodeGroups(s);
    HexEncodeGroups(t);
    forall k | 0 <= k < |t| ensures Pair(e, k) == Pair(ToLower(s), k) {
      LowerPair(s, k);
      PairOfValue(ToLower(Pair(s, k)));
    }
    SameGroups(e, ToLower(s));
  }

  /** Lower-casing a group is taking that group of the lower-cased string. */
  lemma LowerPair(s: string, k: nat)
    requires 2 * k + 2 <= |s|
    ensures ToLower(Pair(s, k)) == Pair(ToLower(s), k)
  {
  }

  lemma PairOfValue(p: string)
    requires p in HexToShort
    ensures HexPair(HexToShort[p]) == p
  {
    var i :| 0 <= i < 256 && HexPair(i as uint8) == p;
    HexPairValue(i as uint8);
  }

  /** Two even-length strings with the same groups are equal. */
  lemma SameGroups(a: string, b: string)
    requires |a| == |b| && |a| % 2 == 0
    requires forall k :: 0 <= k < |a| / 2 ==> Pair(a, k) == Pair(b, k)
    ensures a == b
  {
    forall i | 0 <= i < |a| ensures a[i] == b[i] {
      var k := i / 2;
      assert a[i] == Pair(a, k)[i - 2 * k];
      assert b[i] == Pair(b, k)[i - 2 * k];
    }
  }

  /** `fromHex`: rejects odd length, then decodes group by group into a
      `Uint8Array` of half the length, rejecting the first unknown group. */
  method FromHex(encoded: string) returns (r: Result<seq<uint8>, HexError>)
    ensures r == HexDecode(encoded)
  {
    if |encoded| % 2 != 0 {
      return Failure(OddLength);
    }
    var out := new uint8[|encoded| / 2];
    var i := 0;
    ghost var j := 0;
    while i < |encoded|
      invariant i == 2 * j && 0 <= i <= |encoded|
      invariant forall k :: 0 <= k < j ==> ToLower(Pair(encoded, k)) in HexToShort && out[k] == HexToShort[ToLower(Pair(encoded, k))]
    {
      var encodedByte := ToLower(encoded[i..i + 2]);
      assert encodedByte == ToLower(Pair(encoded, j));
      if encodedByte in HexToShort {
        out[i / 2] := HexToShort[encodedByte];
      } else {
        HexDecodeFirstBad(encoded, j);
        return Failure(UnrecognizedSequence(encodedByte));
      }
      i, j := i + 2, j + 1;
    }
    HexDecodeAll(encoded, out[..]);
    return Success(out[..]);
  }

  /** Bytes that match every group of an even-length string are its decoding. */
  lemma HexDecodeAll(s: string, v: seq<uint8>)
    requires |s| % 2 == 0 && |v| == |s| / 2
    requires forall k :: 0 <= k < |v| ==> ToLower(Pair(s, k)) in HexToShort && v[k] == HexToShort[ToLower(Pair(s, k))]
    ensures HexDecode(s) == Success(v)
  {
    HexDecodeGroups(s);
    assert HexDecode(s).value == v;
  }

  /** The error `fromHex` reports is the first group that is not a hex pair. */
  lemma {:induction false} HexDecodeFirstBad(s: string, j: nat)
    requires |s| % 2 == 0 && 2 * j + 2 <= |s|
    requires forall k :: 0 <= k < j ==> ToLower(Pair(s, k)) in HexToShort
    requires ToLower(Pair(s, j)) !in HexToShort
    ensures HexDecode(s) == Failure(UnrecognizedSequence(ToLower(Pair(s, j))))
  {
    assert Pair(s, 0) == s[..2];
    if j > 0 {
      var t := s[2..];
      forall k | 0 <= k <= j - 1 ensures Pair(t, k) == Pair(s, k + 1) {
        PairShift(s, k);
      }
      HexDecodeFirstBad(t, j - 1);
    }
  }

  /** `toHex`: appends each byte's table entry. */
  method ToHex(bytes: seq<uint8>) returns (out: string)
    ensures out == HexEncode(bytes)
  {
    out := "";
    for i := 0 to |bytes|
      invariant out == HexEncode(bytes[..i])
    {
      assert bytes[..i + 1][..i] == bytes[..i];
      out := out + ShortToHex[bytes[i]];
    }
    assert bytes[..|bytes|] == bytes;
  }

  // ===========================================================================
  // base64url secret block (section 5 of RFC 4648) to the standard alphabet (section 4)

  function UrlSafeToStandard(c: char): char {
    if c == '-' then '+' else if c == '_' then '/' else c
  }

  /** The string `_urlB64ToUint8Array` hands to `atob`: padded with `=` to a
      multiple of four and moved from the URL-safe alphabet to the standard one. */
  function PrepareUrlB64(base64String: string): (base64: string)
    ensures |base64| % 4 == 0
    ensures |base64String| <= |base64| <= |base64String| + 3
    ensures forall i :: 0 <= i < |base64String| ==> base64[i] == UrlSafeToStandard(base64String[i])
    ensures forall i :: |base64String| <= i < |base64| ==> base64[i] == '='
  {
    var padding := Repeat('=', (4 - |base64String| % 4) % 4);
    ReplaceAll(ReplaceAll(base64String + padding, '-', '+'), '_', '/')
  }

  /** `charCodeAt` stored into a `Uint8Array` element keeps the low eight bits. */
  function ByteOfChar(c: char): uint8 {
    (c as int % 256) as uint8
  }

  /** The string `String.fromCharCode` builds from bytes, one character per byte. */
  function BinaryString(bytes: seq<uint8>): (s: string)
    ensures |s| == |bytes| && forall i :: 0 <= i < |bytes| ==> s[i] as int == bytes[i] as int
  {
    seq(|bytes|, i requires 0 <= i < |bytes| => bytes[i] as int as char)
  }

  /** `_encodeBase64Bytes`: the binary string of the bytes, through `btoa`. */
  function EncodeBase64Bytes(bytes: seq<uint8>, btoa: string -> Result<string, AuthError>): (r: Result<string, AuthError>)
    ensures forall s: string ::
      |s| == |bytes| && (forall i :: 0 <= i < |s| ==> s[i] as int == bytes[i] as int) ==> r == btoa(s)
  {
    BinaryStringUnique(bytes);
    btoa(BinaryString(bytes))
  }

  /** Only one string has one character per byte carrying that byte's code. */
  lemma BinaryStringUnique(bytes: seq<uint8>)
    ensures forall s: string ::
      |s| == |bytes| && (forall i :: 0 <= i < |s| ==> s[i] as int == bytes[i] as int) ==> s == BinaryString(bytes)
  {
    forall s: string | |s| == |bytes| && (forall i :: 0 <= i < |s| ==> s[i] as int == bytes[i] as int)
      ensures s == BinaryString(bytes)
    {
      var b := BinaryString(bytes);
      assert forall i :: 0 <= i < |s| ==> s[i] == b[i];
    }
  }

  /** The character codes `charCodeAt` stores into a `Uint8Array`. */
  function CharCodes(rawData: string): (r: seq<uint8>)
    ensures |r| == |rawData| && forall i :: 0 <= i < |rawData| ==> r[i] == ByteOfChar(rawData[i])
  {
    seq(|rawData|, i requires 0 <= i < |rawData| => ByteOfChar(rawData[i]))
  }

  /** `_urlB64ToUint8Array`: decodes the prepared string with `atob` and copies
      the character codes into a new byte array; what `atob` throws propagates. */
  method UrlB64ToUint8Array(base64String: string, atob: string -> Result<string, AuthError>)
    returns (outputArray: Result<array<uint8>, AuthError>)
    ensures atob(PrepareUrlB64(base64String)).Failure? ==>
      outputArray == Failure(atob(PrepareUrlB64(base64String)).error)
    ensures atob(PrepareUrlB64(base64String)).Success? ==>
      && outputArray.Success? && fresh(outputArray.value)
      && outputArray.value[..] == CharCodes(atob(PrepareUrlB64(base64String)).value)
  {
    var base64 := PrepareUrlB64(base64String);
    var decoded := atob(base64);
    if decoded.Failure? {
      return Failure(decoded.error);
    }
    var rawData := decoded.value;
    var out := new uint8[|rawData|];
    for i := 0 to |rawData|
      invariant forall k :: 0 <= k < i ==> out[k] == ByteOfChar(rawData[k])
    {
      out[i] := ByteOfChar(rawData[i]);
    }
    outputArray := Success(out);
  }

  /** Reading the character codes of a binary string back gives its bytes. */
  lemma BinaryStringRoundTrip(bytes: seq<uint8>)
    ensures CharCodes(BinaryString(bytes)) == bytes
  {
  }

  // ===========================================================================
  // Timestamp

  const MonthNames: seq<string> := ["Jan", "Feb", "Mar", "Apr", "May", "Jun", "Jul", "Aug", "Sep", "Oct", "Nov", "Dec"]
  const WeekNames: seq<string> := ["Sun", "Mon", "Tue", "Wed", "Thu", "Fri", "Sat"]

  /** The UTC fields `getNowString` reads from `new Date()`. */
  datatype UtcTime = UtcTime(day: nat, month: nat, date: nat, hours: nat, minutes: nat, seconds: nat, fullYear: int) {
    predicate Valid() {
      day < 7 && month < 12 && 1 <= date <= 31 && hours < 24 && minutes < 60 && seconds < 60
    }
  }

  /** The reference two-digit decimal rendering of a number below 100. */
  function TwoDigits(n: nat): string
    requires n < 100
  {
    [DigitChar(n / 10), DigitChar(n % 10)]
  }

  lemma {:induction false} ZeroPadded(n: nat)
    requires n < 100
    ensures (if n < 10 then "0" + Digits(n, 10) else Digits(n, 10)) == TwoDigits(n)
  {
    if n >= 10 {
      assert Digits(n / 10, 10) == [DigitChar(n / 10)];
    }
  }

  /** `getNowString`: `ddd MMM D HH:mm:ss UTC YYYY`, with the day unpadded and
      hours, minutes and seconds padded to two digits. */
  method GetNowString(now: UtcTime) returns (dateNow: string)
    requires now.Valid()
    ensures dateNow == WeekNames[now.day] + " " + MonthNames[now.month] + " " + Digits(now.date, 10) + " "
                       + TwoDigits(now.hours) + ":" + TwoDigits(now.minutes) + ":" + TwoDigits(now.seconds)
                       + " UTC " + IntToString(now.fullYear)
  {
    var weekDay := WeekNames[now.day];
    var month := MonthNames[now.month];
    var day := Digits(now.date, 10);
    var hours := Digits(now.hours, 10);
    if now.hours < 10 {
      hours := "0" + hours;
    }
    var minutes := Digits(now.minutes, 10);
    if now.minutes < 10 {
      minutes := "0" + minutes;
    }
    var seconds := Digits(now.seconds, 10);
    if now.seconds < 10 {
      seconds := "0" + seconds;
    }
    var year := IntToString(now.fullYear);
    ZeroPadded(now.hours);
    ZeroPadded(now.minutes);
    ZeroPadded(now.seconds);
    dateNow := weekDay + " " + month + " " + day + " " + hours + ":" + minutes + ":" + seconds + " UTC " + year;
  }

  // ===========================================================================
  // Signature

  /** `TypedArray.prototype.set(src, offset)`. */
  method SetAt(buf: array<uint8>, src: seq<uint8>, offset: nat)
    requires offset + |src| <= buf.Length
    modifies buf
    ensures forall k :: 0 <= k < buf.Length ==>
      buf[k] == if offset <= k < offset + |src| then src[k - offset] else old(buf[k])
  {
    for j := 0 to |src|
      invariant forall k :: 0 <= k < buf.Length ==>
        buf[k] == if offset <= k < offset + j then src[k - offset] else old(buf[k])
    {
      buf[offset + j] := src[j];
    }
  }

  /** `bufConcat` of `getSignatureString`: pool name, user name, secret block
      and timestamp bytes, back to back. */
  method SignatureBuffer(poolName: seq<uint8>, username: seq<uint8>, secretBlock: seq<uint8>, dateNow: seq<uint8>)
    returns (bufConcat: array<uint8>)
    ensures bufConcat.Length == |poolName| + |username| + |secretBlock| + |dateNow|
    ensures bufConcat[..|poolName|] == poolName
    ensures bufConcat[|poolName|..|poolName| + |username|] == username
    ensures bufConcat[|poolName| + |username|..|poolName| + |username| + |secretBlock|] == secretBlock
    ensures bufConcat[|poolName| + |username| + |secretBlock|..] == dateNow
    ensures bufConcat[..] == poolName + username + secretBlock + dateNow
  {
    var p, u, s := |poolName|, |username|, |secretBlock|;
    bufConcat := new uint8[p + u + s + |dateNow|];
    SetAt(bufConcat, poolName, 0);
    SetAt(bufConcat, username, p);
    SetAt(bufConcat, secretBlock, p + u);
    SetAt(bufConcat, dateNow, p + u + s);
    var whole := poolName + username + secretBlock + dateNow;
    assert bufConcat[..] == whole by {
      forall k | 0 <= k < bufConcat.Length ensures bufConcat[k] == whole[k] {
      }
    }
    assert whole[..p] == poolName;
    assert whole[p..p + u] == username;
    assert whole[p + u..p + u + s] == secretBlock;
    assert whole[p + u + s..] == dateNow;
  }

  /** The foreign primitives `getSignatureString` uses: `TextEncoder.encode`,
      `atob`, the keyed SHA-256 digest and `btoa`. `atob` fails on a string that
      is not base64 (InvalidCharacterError); either fails with a TypeError when
      `getAtob` or `getBtoa` finds no implementation. */
  datatype Crypto = Crypto(
    encode: string -> seq<uint8>,
    atob: string -> Result<string, AuthError>,
    hmacSha256: (Key, seq<uint8>) -> seq<uint8>,
    btoa: string -> Result<string, AuthError>)

  /** `getSignatureString`: the keyed digest of the signature buffer, in base64.
      A secret block `atob` rejects throws before the digest is taken. */
  method GetSignatureString(userPoolName: string, username: string, secretBlock: string, dateNow: string,
                            hkdf: Key, crypto: Crypto)
    returns (signatureString: Result<string, AuthError>)
    ensures var rawData := crypto.atob(PrepareUrlB64(secretBlock));
      && (rawData.Failure? ==> signatureString == Failure(rawData.error))
      && (rawData.Success? ==>
            signatureString == EncodeBase64Bytes(
              crypto.hmacSha256(hkdf, crypto.encode(userPoolName) + crypto.encode(username)
                                      + CharCodes(rawData.value) + crypto.encode(dateNow)),
              crypto.btoa))
  {
    var bufUPIDaToB := crypto.encode(userPoolName);
    var bufUNaToB := crypto.encode(username);
    var bufSBaToB := UrlB64ToUint8Array(secretBlock, crypto.atob);
    if bufSBaToB.Failure? {
      return Failure(bufSBaToB.error);
    }
    var bufDNaToB := crypto.encode(dateNow);
    var bufConcat := SignatureBuffer(bufUPIDaToB, bufUNaToB, bufSBaToB.value[..], bufDNaToB);
    var resultFromAWSCrypto := crypto.hmacSha256(hkdf, bufConcat[..]);
    signatureString := EncodeBase64Bytes(resultFromAWSCrypto, crypto.btoa);
  }

  // ===========================================================================
  // Sign-in results

  /** The challenge names this file's `getSignInResult` maps to a next step. */
  const SupportedChallenges: set<string> :=
    {CUSTOM_CHALLENGE, MFA_SETUP, NEW_PASSWORD_REQUIRED, SELECT_MFA_TYPE, SMS_MFA, SOFTWARE_TOKEN_MFA}

  /** The challenge a step of the sign-in mappings asks the user to answer: an
      independent inverse of them. */
  function ChallengeForStep(step: SignInStep): Option<string> {
    match step
    case CONFIRM_SIGN_IN_WITH_CUSTOM_CHALLENGE => Some(CUSTOM_CHALLENGE)
    case CONTINUE_SIGN_IN_WITH_TOTP_SETUP => Some(MFA_SETUP)
    case CONFIRM_SIGN_IN_WITH_NEW_PASSWORD_REQUIRED => Some(NEW_PASSWORD_REQUIRED)
    case CONTINUE_SIGN_IN_WITH_MFA_SELECTION => Some(SELECT_MFA_TYPE)
    case CONFIRM_SIGN_IN_WITH_SMS_CODE => Some(SMS_MFA)
    case CONFIRM_SIGN_IN_WITH_TOTP_CODE => Some(SOFTWARE_TOKEN_MFA)
    case _ => None
  }

  /** This file's `parseAttributes`: nothing for an absent or empty string, else the string itself. */
  function ParseAttributes(attributes: Option<string>): (r: seq<string>)
    ensures !Truthy(attributes) <==> r == []
    ensures Truthy(attributes) ==> r == [attributes.value]
  {
    if !Truthy(attributes) then [] else [attributes.value]
  }

  /** The challenges whose step this file's `getSignInResult` reads from a member
      that the step enumeration does not have. */
  const UnpublishedStepChallenges: set<string> := {MFA_SETUP, SELECT_MFA_TYPE, SMS_MFA, SOFTWARE_TOKEN_MFA}

  /** This file's `getSignInResult` as written: MFA_SETUP, SELECT_MFA_TYPE, SMS_MFA
      and SOFTWARE_TOKEN_MFA name step members the enumeration lacks, so their
      step is `Undefined`. */
  function GetSignInResultAsWritten(challengeName: Option<string>, challengeParameters: Option<Params>, secretCode: Option<string>)
    : (r: Result<SignInResult, AuthError>)
    ensures r.Success? ==> !r.value.isSignedIn
    ensures challengeName.Some? && challengeName.value in UnpublishedStepChallenges && r.Success? ==>
      r.value.nextStep.signInStep == Undefined
    ensures challengeName == Some(CUSTOM_CHALLENGE) ==> r.Success? && r.value.nextStep.signInStep == CONFIRM_SIGN_IN_WITH_CUSTOM_CHALLENGE
    ensures challengeName == Some(NEW_PASSWORD_REQUIRED) && r.Success? ==>
      r.value.nextStep.signInStep == CONFIRM_SIGN_IN_WITH_NEW_PASSWORD_REQUIRED
    ensures (challengeName.None? || challengeName.value !in SupportedChallenges) ==>
      r == Failure(AuthError(UnrecognizedChallengeName))
  {
    if challengeName.None? then Failure(AuthError(UnrecognizedChallengeName))
    else
      var name := challengeName.value;
      if name == CUSTOM_CHALLENGE then
        Success(SignInResult(false, Bare(CONFIRM_SIGN_IN_WITH_CUSTOM_CHALLENGE).(additionalInfo := challengeParameters)))
      else if name == MFA_SETUP then
        Success(SignInResult(false, Bare(Undefined).(additionalInfo := challengeParameters, secretCode := secretCode)))
      else if name == NEW_PASSWORD_REQUIRED then
        if challengeParameters.None? then Failure(AuthError(TypeErrorName))
        else Success(SignInResult(false, Bare(CONFIRM_SIGN_IN_WITH_NEW_PASSWORD_REQUIRED)
          .(additionalInfo := challengeParameters,
            missingAttributes := Some(ParseAttributes(Lookup(challengeParameters, "requiredAttributes"))))))
      else if name == SELECT_MFA_TYPE then
        Success(SignInResult(false, Bare(Undefined).(additionalInfo := challengeParameters)))
      else if name == SMS_MFA then
        if challengeParameters.None? then Failure(AuthError(TypeErrorName))
        else Success(SignInResult(false, Bare(Undefined)
          .(codeDeliveryDetails := Some(CodeDeliveryDetails(
              Lookup(challengeParameters, "CODE_DELIVERY_DELIVERY_MEDIUM"),
              Lookup(challengeParameters, "CODE_DELIVERY_DESTINATION"))))))
      else if name == SOFTWARE_TOKEN_MFA then
        Success(SignInResult(false, Bare(Undefined)))
      else
        // ADMIN_NO_SRP_AUTH, DEVICE_PASSWORD_VERIFIER, DEVICE_SRP_AUTH, PASSWORD_VERIFIER and anything else
        Failure(AuthError(UnrecognizedChallengeName))
  }

  /** As written, an SMS code and a TOTP code are asked for with the same,
      undefined, step: a caller cannot tell which code to collect. */
  lemma AsWrittenStepsCollapse(p: Params)
    ensures GetSignInResultAsWritten(Some(SMS_MFA), Some(p), None).Success?
    ensures GetSignInResultAsWritten(Some(SOFTWARE_TOKEN_MFA), Some(p), None).Success?
    ensures GetSignInResultAsWritten(Some(SMS_MFA), Some(p), None).value.nextStep.signInStep
         == GetSignInResultAsWritten(Some(SOFTWARE_TOKEN_MFA), Some(p), None).value.nextStep.signInStep
  {
  }

  /** As written, a defined step still identifies its challenge. */
  lemma AsWrittenOneToOneOnDefined(n1: Option<string>, p1: Option<Params>, c1: Option<string>,
                                   n2: Option<string>, p2: Option<Params>, c2: Option<string>)
    requires GetSignInResultAsWritten(n1, p1, c1).Success? && GetSignInResultAsWritten(n2, p2, c2).Success?
    requires GetSignInResultAsWritten(n1, p1, c1).value.nextStep.signInStep != Undefined
    requires GetSignInResultAsWritten(n1, p1, c1).value.nextStep.signInStep
          == GetSignInResultAsWritten(n2, p2, c2).value.nextStep.signInStep
    ensures n1 == n2 && n1.Some? && n1.value in {CUSTOM_CHALLENGE, NEW_PASSWORD_REQUIRED}
  {
  }

  /** The as-written mapping and the corrected one agree on everything but the
      step, and the step differs exactly for the four challenges above. */
  lemma AsWrittenDiffersOnlyInStep(challengeName: Option<string>, challengeParameters: Option<Params>, secretCode: Option<string>)
    ensures var w := GetSignInResultAsWritten(challengeName, challengeParameters, secretCode);
            var c := GetSignInResult(challengeName, challengeParameters, secretCode);
            (w.Failure? <==> c.Failure?)
            && (w.Failure? ==> w == c)
            && (w.Success? ==>
                  w.value.isSignedIn == c.value.isSignedIn
                  && w.value.nextStep == c.value.nextStep.(signInStep := w.value.nextStep.signInStep)
                  && (w.value.nextStep.signInStep != c.value.nextStep.signInStep
                      <==> challengeName.value in UnpublishedStepChallenges))
  {
  }

  /** This file's `getSignInResult` with the step members the enumeration has:
      the four challenges above get the steps that `signInHelpers.ts` gives them.
      The other fields are this file's. */
  function GetSignInResult(challengeName: Option<string>, challengeParameters: Option<Params>, secretCode: Option<string>)
    : (r: Result<SignInResult, AuthError>)
    ensures r.Success? ==> !r.value.isSignedIn
    ensures r.Success? <==>
      challengeName.Some? && challengeName.value in SupportedChallenges
      && (challengeName.value in {NEW_PASSWORD_REQUIRED, SMS_MFA} ==> challengeParameters.Some?)
    ensures r.Success? ==> ChallengeForStep(r.value.nextStep.signInStep) == challengeName
    ensures (challengeName.None? || challengeName.value !in SupportedChallenges) ==>
      r == Failure(AuthError(UnrecognizedChallengeName))
    ensures r.Failure? && challengeName.Some? && challengeName.value in SupportedChallenges ==>
      r == Failure(AuthError(TypeErrorName))
    ensures challengeName == Some(SMS_MFA) && r.Success? ==>
      r.value.nextStep.codeDeliveryDetails == Some(CodeDeliveryDetails(
        Lookup(challengeParameters, "CODE_DELIVERY_DELIVERY_MEDIUM"), Lookup(challengeParameters, "CODE_DELIVERY_DESTINATION")))
    ensures challengeName == Some(MFA_SETUP) ==>
      r.Success? && r.value.nextStep.secretCode == secretCode && r.value.nextStep.additionalInfo == challengeParameters
    ensures challengeName == Some(NEW_PASSWORD_REQUIRED) && r.Success? ==>
      r.value.nextStep.missingAttributes == Some(ParseAttributes(Lookup(challengeParameters, "requiredAttributes")))
    ensures r.Success? && challengeName.value in {CUSTOM_CHALLENGE, MFA_SETUP, NEW_PASSWORD_REQUIRED, SELECT_MFA_TYPE} ==>
      r.value.nextStep.additionalInfo == challengeParameters
    ensures challengeName == Some(SMS_MFA) && r.Success? ==> r.value.nextStep.additionalInfo.None?
    ensures challengeName == Some(SOFTWARE_TOKEN_MFA) ==>
      r == Success(SignInResult(false, Bare(CONFIRM_SIGN_IN_WITH_TOTP_CODE)))
  {
    if challengeName.None? then Failure(AuthError(UnrecognizedChallengeName))
    else
      var name := challengeName.value;
      if name == CUSTOM_CHALLENGE then
        Success(SignInResult(false, Bare(CONFIRM_SIGN_IN_WITH_CUSTOM_CHALLENGE).(additionalInfo := challengeParameters)))
      else if name == MFA_SETUP then
        Success(SignInResult(false, Bare(CONTINUE_SIGN_IN_WITH_TOTP_SETUP)
          .(additionalInfo := challengeParameters, secretCode := secretCode)))
      else if name == NEW_PASSWORD_REQUIRED then
        if challengeParameters.None? then Failure(AuthError(TypeErrorName))
        else Success(SignInResult(false, Bare(CONFIRM_SIGN_IN_WITH_NEW_PASSWORD_REQUIRED)
          .(additionalInfo := challengeParameters,
            missingAttributes := Some(ParseAttributes(Lookup(challengeParameters, "requiredAttributes"))))))
      else if name == SELECT_MFA_TYPE then
        Success(SignInResult(false, Bare(CONTINUE_SIGN_IN_WITH_MFA_SELECTION).(additionalInfo := challengeParameters)))
      else if name == SMS_MFA then
        if challengeParameters.None? then Failure(AuthError(TypeErrorName))
        else Success(SignInResult(false, Bare(CONFIRM_SIGN_IN_WITH_SMS_CODE)
          .(codeDeliveryDetails := Some(CodeDeliveryDetails(
              Lookup(challengeParameters, "CODE_DELIVERY_DELIVERY_MEDIUM"),
              Lookup(challengeParameters, "CODE_DELIVERY_DESTINATION"))))))
      else if name == SOFTWARE_TOKEN_MFA then
        Success(SignInResult(false, Bare(CONFIRM_SIGN_IN_WITH_TOTP_CODE)))
      else
        Failure(AuthError(UnrecognizedChallengeName))
  }

  /** Two challenges that map to the same step are the same challenge. */
  lemma GetSignInResultOneToOne(n1: Option<string>, p1: Option<Params>, c1: Option<string>,
                                n2: Option<string>, p2: Option<Params>, c2: Option<string>)
    requires GetSignInResult(n1, p1, c1).Success? && GetSignInResult(n2, p2, c2).Success?
    requires GetSignInResult(n1, p1, c1).value.nextStep.signInStep == GetSignInResult(n2, p2, c2).value.nextStep.signInStep
    ensures n1 == n2
  {
  }

  /** This file's `getSignInResultFromError`. */
  function GetSignInResultFromError(errorName: string): (r: Option<SignInResult>)
    ensures r.Some? <==> errorName in {PasswordResetRequiredException, UserNotConfirmedException}
    ensures errorName == PasswordResetRequiredException ==> r == Some(SignInResult(false, Bare(RESET_PASSWORD)))
    ensures errorName == UserNotConfirmedException ==> r == Some(SignInResult(false, Bare(CONFIRM_SIGN_UP)))
  {
    if errorName == PasswordResetRequiredException then Some(SignInResult(false, Bare(RESET_PASSWORD)))
    else if errorName == UserNotConfirmedException then Some(SignInResult(false, Bare(CONFIRM_SIGN_UP)))
    else None
  }
}
