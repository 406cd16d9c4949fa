/** The link format of the audit chain: hashes, hex fields, signing inputs, and the
    declarative reading of "this list of events is an intact chain". */
module AuditChain {
  import opened Text

  type Byte = x: int | 0 <= x < 256
  type Bytes = seq<Byte>
  type Digest = d: Bytes | |d| == 32 witness Zeros(32)

  function Zeros(n: nat): (b: Bytes)
    ensures |b| == n && forall i :: 0 <= i < n ==> b[i] == 0
  {
    if n == 0 then [] else [0] + Zeros(n - 1)
  }

  /** prev_hash of the first event of every run: 32 zero bytes. */
  const GENESIS_HASH: Digest := Zeros(32)

  /** SHA-256 (FIPS 180-4) and one Ed25519 key pair (section 5.1 of RFC 8032), as black boxes. */
  datatype Crypto = Crypto(hash: string -> Digest, sign: Bytes -> Bytes, verify: (Bytes, Bytes) -> bool)
  {
    /** A signature made with the private key verifies under the public key. */
    ghost predicate SignaturesVerify() {
      forall input: Bytes :: verify(input, sign(input))
    }
  }

  /** A row of audit_events. */
  datatype StoreEvent = StoreEvent(
    id: nat,                  // ULIDs have fixed width, so their text order is the order of their 128-bit values
    runID: Option<string>,
    iterationID: Option<string>,
    ts: int,
    eventType: string,
    actor: string,
    payloadJSON: string,
    payloadHash: string,
    prevHash: string,
    signature: string,
    otelTraceID: Option<string>,
    otelSpanID: Option<string>)

  // ---------------------------------------------------------------- hex fields

  function HexEncode(b: Bytes): string {
    if b == [] then "" else [HEX_DIGITS[b[0] / 16], HEX_DIGITS[b[0] % 16]] + HexEncode(b[1..])
  }

  /** hex.DecodeString: either case is accepted; an odd length or a foreign character is an error. */
  function HexDecode(s: string): Option<Bytes> {
    if s == "" then Some([])
    else if |s| == 1 || HexValue(s[0]) < 0 || HexValue(s[1]) < 0 then None
    else match HexDecode(s[2..])
      case None => None
      case Some(rest) => Some([16 * HexValue(s[0]) + HexValue(s[1])] + rest)
  }

  /** The first two digits are one byte; the rest is read as if they were not there. */
  lemma HexDecodeStep(hi: char, lo: char, s: string)
    requires HexValue(hi) >= 0 && HexValue(lo) >= 0
    ensures HexDecode([hi, lo] + s) ==
            match HexDecode(s) case None => None case Some(rest) => Some([16 * HexValue(hi) + HexValue(lo)] + rest)
  {
    hide HexValue;
    assert ([hi, lo] + s)[2..] == s;
  }

  lemma {:induction false} HexRoundTrip(b: Bytes)
    ensures HexDecode(HexEncode(b)) == Some(b)
  {
    hide HexDecode, HexValue;
    if b == [] {
      EmptyHex();
    } else {
      HexRoundTrip(b[1..]);
      HexDigitValue(b[0] / 16);
      HexDigitValue(b[0] % 16);
      HexDecodeStep(HEX_DIGITS[b[0] / 16], HEX_DIGITS[b[0] % 16], HexEncode(b[1..]));
      assert b == [b[0]] + b[1..];
    }
  }

  lemma EmptyHex()
    ensures HexDecode("") == Some([])
  {
  }

  /** Two lower-case digits a byte, the high half first. */
  lemma {:induction false} HexEncodeAt(b: Bytes, i: nat)
    requires i < |b|
    ensures |HexEncode(b)| == 2 * |b|
    ensures HexEncode(b)[2 * i] == "0123456789abcdef"[b[i] / 16] && HexEncode(b)[2 * i + 1] == "0123456789abcdef"[b[i] % 16]
  {
    if i > 0 {
      HexEncodeAt(b[1..], i - 1);
    } else if |b| > 1 {
      HexEncodeAt(b[1..], 0);
    }
  }

  ghost predicate AllHex(s: string) {
    forall i :: 0 <= i < |s| ==> HexValue(s[i]) >= 0
  }

  lemma AllHexPair(s: string)
    requires |s| >= 2
    ensures AllHex(s) <==> HexValue(s[0]) >= 0 && HexValue(s[1]) >= 0 && AllHex(s[2..])
  {
    hide HexValue;
    assert s == [s[0], s[1]] + s[2..];
  }

  lemma {:induction false} HexDecodeDefined(s: string)
    ensures HexDecode(s).Some? <==> |s| % 2 == 0 && AllHex(s)
  {
    hide HexValue;
    if |s| >= 2 {
      hide AllHex;
      HexDecodeDefined(s[2..]);
      AllHexPair(s);
    }
  }

  /** What decodes: an even number of hex digits, of either case. */
  lemma HexDecodeAccepts(s: string)
    ensures HexDecode(s).Some? <==> |s| % 2 == 0 && forall i :: 0 <= i < |s| ==> s[i] in "0123456789abcdefABCDEF"
  {
    hide HexDecode, HexValue;
    HexDecodeDefined(s);
    forall i | 0 <= i < |s| ensures HexValue(s[i]) >= 0 <==> s[i] in "0123456789abcdefABCDEF" {
      HexCharacters(s[i]);
    }
  }

  /** And to what: two digits to a byte, the high half first. */
  lemma {:induction false} HexDecodeAt(s: string, i: nat)
    requires HexDecode(s).Some?
    ensures 2 * |HexDecode(s).value| == |s|
    ensures 2 * i + 1 < |s| ==> HexDecode(s).value[i] == 16 * HexValue(s[2 * i]) + HexValue(s[2 * i + 1])
  {
    hide HexValue;
    if |s| >= 2 {
      HexDecodeAt(s[2..], if i > 0 then i - 1 else 0);
    }
  }

  /** prev_hash of a run's first event: 64 zeros. */
  lemma GenesisColumn(i: nat)
    requires i < 64
    ensures |HexEncode(GENESIS_HASH)| == 64 && HexEncode(GENESIS_HASH)[i] == '0'
  {
    hide HexEncode;
    HexEncodeAt(GENESIS_HASH, i / 2);
    assert GENESIS_HASH[i / 2] == 0;
  }

  /** `copy` into a [32]byte: a longer slice is cut, a shorter one is zero-padded. */
  function CopyTo32(b: Bytes): (d: Digest)
    ensures |b| == 32 ==> d == b
    ensures forall i :: 0 <= i < 32 ==> d[i] == if i < |b| then b[i] else 0
  {
    if |b| >= 32 then b[..32] else b + Zeros(32 - |b|)
  }

  // ---------------------------------------------------------------- links

  /** prev_hash || payload_hash, 64 raw bytes. */
  function SigningInput(prev: Digest, payloadHash: Digest): (input: Bytes)
    ensures |input| == 64 && input[..32] == prev && input[32..] == payloadHash
  {
    prev + payloadHash
  }

  /** `ComputeSigningInput`: two copies into a 64-byte buffer. */
  method ComputeSigningInput(prev: Digest, payloadHash: Digest) returns (input: Bytes)
    ensures |input| == 64 && input[..32] == prev && input[32..] == payloadHash
    ensures input == SigningInput(prev, payloadHash)
  {
    var buf := new Byte[64](i => 0);
    for i := 0 to 32
      invariant buf[..i] == prev[..i]
    {
      buf[i] := prev[i];
    }
    for i := 0 to 32
      invariant buf[..32 + i] == prev + payloadHash[..i]
    {
      buf[32 + i] := payloadHash[i];
    }
    input := buf[..];
  }

  /** The 64 bytes say which two hashes were linked. */
  lemma SigningInputInjective(prev: Digest, h: Digest, prev': Digest, h': Digest)
    requires SigningInput(prev, h) == SigningInput(prev', h')
    ensures prev == prev' && h == h'
  {
    hide SigningInput;
    assert SigningInput(prev, h)[..32] == prev && SigningInput(prev', h')[..32] == prev';
  }

  /** The hash a hex column stands for, as `VerifyRun` and `prevHash` read it. */
  function ReadHash(column: string): Option<Digest> {
    match HexDecode(column)
    case None => None
    case Some(b) => Some(CopyTo32(b))
  }

  /** `prevHash`: what the next event has to link to; None when the last row's payload_hash is not hex. */
  function PrevHash(last: Option<StoreEvent>): Option<Digest> {
    if last.None? then Some(GENESIS_HASH) else ReadHash(last.value.payloadHash)
  }

  /** `ev` is a sound link after an event whose payload hash is `expected`. */
  ghost predicate EventOK(c: Crypto, expected: Digest, ev: StoreEvent) {
    && ReadHash(ev.prevHash) == Some(expected)
    && ReadHash(ev.payloadHash) == Some(c.hash(ev.payloadJSON))
    && HexDecode(ev.signature).Some?
    && c.verify(SigningInput(expected, c.hash(ev.payloadJSON)), HexDecode(ev.signature).value)
  }

  /** The hash the event after `events` has to carry in prev_hash. */
  function Tip(c: Crypto, events: seq<StoreEvent>): Digest {
    if events == [] then GENESIS_HASH else c.hash(events[|events| - 1].payloadJSON)
  }

  /** An intact chain: genesis-rooted, every link sound. */
  ghost predicate ChainOK(c: Crypto, events: seq<StoreEvent>) {
    forall i :: 0 <= i < |events| ==> EventOK(c, Tip(c, events[..i]), events[i])
  }

  lemma ChainExtend(c: Crypto, events: seq<StoreEvent>, ev: StoreEvent)
    ensures ChainOK(c, events + [ev]) <==> ChainOK(c, events) && EventOK(c, Tip(c, events), ev)
  {
    var all := events + [ev];
    forall i | 0 <= i <= |events| ensures all[..i] == events[..i] {}
    assert events[..|events|] == events;
    assert all[|events|] == ev;
    if ChainOK(c, all) {
      forall i | 0 <= i < |events| ensures EventOK(c, Tip(c, events[..i]), events[i]) {
        assert all[i] == events[i];
      }
    }
  }

  /** Truncation at the tail leaves an intact chain: the chain does not protect its own end. */
  lemma ChainPrefix(c: Crypto, events: seq<StoreEvent>, n: nat)
    requires n <= |events| && ChainOK(c, events)
    ensures ChainOK(c, events[..n])
  {
    forall i | 0 <= i < n ensures EventOK(c, Tip(c, events[..n][..i]), events[..n][i]) {
      assert events[..n][..i] == events[..i];
    }
  }
}
