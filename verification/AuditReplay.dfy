/** `VerifyRun`: replay of one run's events, and what its verdict means. */
module AuditReplay {
  import opened Text
  import opened AuditChain
  import opened AuditStore

  datatype Reason =
    | PrevHashNotHex
    | LinkBroken
    | PayloadHashNotHex
    | PayloadHashMismatch
    | SignatureNotHex
    | SignatureInvalid

  datatype VerifyResult = Intact | Broken(eventID: nat, reason: Reason)

  /** `reason` names the first thing wrong with `ev` as the event after hash `expected`. */
  ghost predicate Explains(reason: Reason, c: Crypto, expected: Digest, ev: StoreEvent) {
    var prev, stored, sig := ReadHash(ev.prevHash), ReadHash(ev.payloadHash), HexDecode(ev.signature);
    var h := c.hash(ev.payloadJSON);
    match reason
    case PrevHashNotHex => prev == None
    case LinkBroken => prev != None && prev != Some(expected)
    case PayloadHashNotHex => prev == Some(expected) && stored == None
    case PayloadHashMismatch => prev == Some(expected) && stored != None && stored != Some(h)
    case SignatureNotHex => prev == Some(expected) && stored == Some(h) && sig == None
    case SignatureInvalid =>
      prev == Some(expected) && stored == Some(h) && sig.Some?
      && !c.verify(SigningInput(expected, h), sig.value)
  }

  /** Event `k` is the first one the chain breaks at. */
  ghost predicate FirstBroken(c: Crypto, events: seq<StoreEvent>, k: nat) {
    k < |events| && ChainOK(c, events[..k]) && !ChainOK(c, events[..k + 1])
  }

  ghost predicate BrokenAt(c: Crypto, events: seq<StoreEvent>, res: VerifyResult, k: nat)
    requires res.Broken?
  {
    && FirstBroken(c, events, k)
    && res.eventID == events[k].id && Explains(res.reason, c, Tip(c, events[..k]), events[k])
  }

  /** The verdict on a listing, fixed without replaying it: see `VerdictUnique`. */
  ghost predicate IsVerdict(c: Crypto, events: seq<StoreEvent>, res: VerifyResult) {
    if res.Intact? then ChainOK(c, events) else exists k: nat :: BrokenAt(c, events, res, k)
  }

  /** None is the error return, when the events cannot be loaded. */
  method VerifyRun(c: Crypto, store: AuditTable, run: string, loadFault: bool) returns (res: Option<VerifyResult>)
    ensures res.None? <==> loadFault
    ensures res.Some? ==> IsVerdict(c, Listing(store.rows, run), res.value)
  {
    hide ChainOK, EventOK, Tip, Explains, Listing;
    if loadFault { return None; }
    NothingReplayed(c);
    var events := store.GetAuditEvents(run);
    var expectedPrevHash := GENESIS_HASH;
    for i := 0 to |events|
      invariant expectedPrevHash == Tip(c, events[..i])
      invariant ChainOK(c, events[..i])
    {
      var ev := events[i];
      assert events[..i + 1] == events[..i] + [ev];
      ChainExtend(c, events[..i], ev);
      TipAfter(c, events[..i], ev);
      var link := CheckLink(c, expectedPrevHash, ev);
      if link.Broken? {
        assert BrokenAt(c, events, link, i);
        return Some(link);
      }
      expectedPrevHash := c.hash(ev.payloadJSON);
    }
    assert events[..|events|] == events;
    return Some(Intact);
  }

  lemma NothingReplayed(c: Crypto)
    ensures Tip(c, []) == GENESIS_HASH && ChainOK(c, [])
  {
  }

  lemma TipAfter(c: Crypto, events: seq<StoreEvent>, ev: StoreEvent)
    ensures Tip(c, events + [ev]) == c.hash(ev.payloadJSON)
  {
  }

  /** The body of the replay loop: steps 1 to 4 for one event. */
  method CheckLink(c: Crypto, expected: Digest, ev: StoreEvent) returns (res: VerifyResult)
    ensures res.Intact? <==> EventOK(c, expected, ev)
    ensures res.Broken? ==> res.eventID == ev.id && Explains(res.reason, c, expected, ev)
    ensures res.Intact? ==> HexDecode(ev.signature).Some?
                            && c.verify(expected + c.hash(ev.payloadJSON), HexDecode(ev.signature).value)
  {
    var storedPrev := HexDecode(ev.prevHash);
    if storedPrev.None? { return Broken(ev.id, PrevHashNotHex); }
    var storedPrevHash := CopyTo32(storedPrev.value);
    if storedPrevHash != expected { return Broken(ev.id, LinkBroken); }

    var recomputed := c.hash(ev.payloadJSON);
    var stored := HexDecode(ev.payloadHash);
    if stored.None? { return Broken(ev.id, PayloadHashNotHex); }
    if recomputed != CopyTo32(stored.value) { return Broken(ev.id, PayloadHashMismatch); }

    var input := ComputeSigningInput(storedPrevHash, recomputed);
    assert input == input[..32] + input[32..];
    var sig := HexDecode(ev.signature);
    if sig.None? { return Broken(ev.id, SignatureNotHex); }
    if !c.verify(input, sig.value) { return Broken(ev.id, SignatureInvalid); }
    return Intact;
  }

  // ---------------------------------------------------------------- what a verdict says

  lemma FirstBrokenUnique(c: Crypto, events: seq<StoreEvent>, j: nat, k: nat)
    requires FirstBroken(c, events, j) && FirstBroken(c, events, k)
    ensures j == k
  {
    if j < k {
      BrokenBelow(c, events, j, k);
    } else if k < j {
      BrokenBelow(c, events, k, j);
    }
  }

  lemma BrokenBelow(c: Crypto, events: seq<StoreEvent>, k: nat, n: nat)
    requires FirstBroken(c, events, k) && k < n <= |events|
    ensures !ChainOK(c, events[..n])
  {
    hide ChainOK;
    assert events[..n][..k + 1] == events[..k + 1];
    if ChainOK(c, events[..n]) {
      ChainPrefix(c, events[..n], k + 1);
    }
  }

  /** A broken event's reason is unique: each names the first failing check. */
  lemma ReasonUnique(c: Crypto, expected: Digest, ev: StoreEvent, r: Reason, r': Reason)
    requires Explains(r, c, expected, ev) && Explains(r', c, expected, ev)
    ensures r == r'
  {
    match r {
      case PrevHashNotHex => case LinkBroken => case PayloadHashNotHex =>
      case PayloadHashMismatch => case SignatureNotHex => case SignatureInvalid =>
    }
  }

  /** A list has exactly one verdict, so `VerifyRun` answers OK if and only if the list is an intact chain,
      and otherwise reports the first event at which it stops being one. */
  lemma VerdictUnique(c: Crypto, events: seq<StoreEvent>, a: VerifyResult, b: VerifyResult)
    ensures IsVerdict(c, events, a) && IsVerdict(c, events, b) ==> a == b
    ensures IsVerdict(c, events, a) ==> (a.Intact? <==> ChainOK(c, events))
  {
    if !IsVerdict(c, events, a) {
    } else if a.Broken? {
      var j: nat :| BrokenAt(c, events, a, j);
      NotIntact(c, events, j);
      if b.Broken? && IsVerdict(c, events, b) {
        var k: nat :| BrokenAt(c, events, b, k);
        FirstBrokenUnique(c, events, j, k);
        ReasonUnique(c, Tip(c, events[..j]), events[j], a.reason, b.reason);
      }
    } else if b.Broken? && IsVerdict(c, events, b) {
      var k: nat :| BrokenAt(c, events, b, k);
      NotIntact(c, events, k);
    }
  }

  lemma NotIntact(c: Crypto, events: seq<StoreEvent>, k: nat)
    requires FirstBroken(c, events, k)
    ensures !ChainOK(c, events)
  {
    if ChainOK(c, events) {
      ChainPrefix(c, events, k + 1);
    }
  }

  /** Rewriting one event's payload_json in an intact chain: reported at exactly that event,
      unless the new text has the same SHA-256, in which case nothing is noticed. */
  lemma PayloadTampering(c: Crypto, events: seq<StoreEvent>, k: nat, payload: string)
    requires k < |events| && ChainOK(c, events)
    ensures var altered := events[k := events[k].(payloadJSON := payload)];
            && (c.hash(payload) != c.hash(events[k].payloadJSON) <==> FirstBroken(c, altered, k))
            && (c.hash(payload) == c.hash(events[k].payloadJSON) <==> ChainOK(c, altered))
  {
    hide ChainOK;
    var altered := events[k := events[k].(payloadJSON := payload)];
    ChainPrefix(c, events, k);
    assert altered[..k] == events[..k] && altered[..k + 1] == altered[..k] + [altered[k]];
    if c.hash(payload) != c.hash(events[k].payloadJSON) {
      PayloadBound(c, events, k);
      ChainExtend(c, altered[..k], altered[k]);
      NotIntact(c, altered, k);
    } else {
      SameHashesSameVerdict(c, events, altered);
      if FirstBroken(c, altered, k) { NotIntact(c, altered, k); }
    }
  }

  /** A sound link's payload_hash column pins down the hash of its payload. */
  lemma PayloadBound(c: Crypto, events: seq<StoreEvent>, k: nat)
    requires k < |events| && ChainOK(c, events)
    ensures forall expected, payload :: EventOK(c, expected, events[k].(payloadJSON := payload)) ==>
              c.hash(payload) == c.hash(events[k].payloadJSON)
  {
    assert EventOK(c, Tip(c, events[..k]), events[k]);
  }

  lemma SameHashesSameVerdict(c: Crypto, a: seq<StoreEvent>, b: seq<StoreEvent>)
    requires |a| == |b|
    requires forall i :: 0 <= i < |a| ==>
               && c.hash(a[i].payloadJSON) == c.hash(b[i].payloadJSON)
               && a[i].payloadHash == b[i].payloadHash && a[i].prevHash == b[i].prevHash
               && a[i].signature == b[i].signature
    ensures ChainOK(c, a) <==> ChainOK(c, b)
  {
    forall i | 0 <= i < |a|
      ensures EventOK(c, Tip(c, a[..i]), a[i]) <==> EventOK(c, Tip(c, b[..i]), b[i])
    {
      assert Tip(c, a[..i]) == Tip(c, b[..i]);
    }
  }

  /** id, run, iteration, time, type, actor and trace columns are outside the signature: changing them
      anywhere leaves the verdict OK or not OK as it was. */
  lemma MetadataUnprotected(c: Crypto, a: seq<StoreEvent>, b: seq<StoreEvent>)
    requires |a| == |b|
    requires forall i :: 0 <= i < |a| ==>
               b[i] == a[i].(id := b[i].id, runID := b[i].runID, iterationID := b[i].iterationID, ts := b[i].ts,
                             eventType := b[i].eventType, actor := b[i].actor,
                             otelTraceID := b[i].otelTraceID, otelSpanID := b[i].otelSpanID)
    ensures ChainOK(c, a) <==> ChainOK(c, b)
  {
    SameHashesSameVerdict(c, a, b);
  }

  // ---------------------------------------------------------------- cutting and joining

  /** The hash event k of `events` has to link to when `prev` comes before the first. */
  function LinkTarget(c: Crypto, prev: Digest, events: seq<StoreEvent>, k: nat): Digest
    requires k <= |events|
  {
    if k == 0 then prev else c.hash(events[k - 1].payloadJSON)
  }

  /** `events` links up behind `prev`. */
  ghost predicate LinksBehind(c: Crypto, prev: Digest, events: seq<StoreEvent>) {
    forall k :: 0 <= k < |events| ==> EventOK(c, LinkTarget(c, prev, events, k), events[k])
  }

  lemma TipInside(c: Crypto, a: seq<StoreEvent>, b: seq<StoreEvent>, k: nat)
    requires k <= |b|
    ensures Tip(c, (a + b)[..|a| + k]) == LinkTarget(c, Tip(c, a), b, k)
  {
    var head := (a + b)[..|a| + k];
    if k == 0 {
      assert head == a;
    } else {
      assert head[|head| - 1] == (a + b)[|a| + k - 1] == b[k - 1];
    }
  }

  /** A list is intact when its first part is and the rest links up behind it. */
  lemma ChainAppend(c: Crypto, a: seq<StoreEvent>, b: seq<StoreEvent>)
    ensures ChainOK(c, a + b) <==> ChainOK(c, a) && LinksBehind(c, Tip(c, a), b)
  {
    hide EventOK, Tip, LinkTarget;
    var all := a + b;
    forall i | 0 <= i < |a| ensures all[..i] == a[..i] && all[i] == a[i] {}
    forall k | 0 <= k < |b| ensures Tip(c, all[..|a| + k]) == LinkTarget(c, Tip(c, a), b, k) { TipInside(c, a, b, k); }
    if ChainOK(c, all) {
      forall i | 0 <= i < |a| ensures EventOK(c, Tip(c, a[..i]), a[i]) {
        assert EventOK(c, Tip(c, all[..i]), all[i]);
      }
      forall k | 0 <= k < |b| ensures EventOK(c, LinkTarget(c, Tip(c, a), b, k), b[k]) {
        assert EventOK(c, Tip(c, all[..|a| + k]), all[|a| + k]);
      }
    }
    if ChainOK(c, a) && LinksBehind(c, Tip(c, a), b) {
      forall n | 0 <= n < |all| ensures EventOK(c, Tip(c, all[..n]), all[n]) {
        if n >= |a| {
          var k := n - |a|;
          assert EventOK(c, LinkTarget(c, Tip(c, a), b, k), b[k]);
        }
      }
    }
  }

  /** The first event pins down what it links behind. */
  lemma OneTarget(c: Crypto, prev: Digest, prev': Digest, events: seq<StoreEvent>)
    requires events != [] && LinksBehind(c, prev, events) && LinksBehind(c, prev', events)
    ensures prev == prev'
  {
    assert EventOK(c, LinkTarget(c, prev, events, 0), events[0]);
    assert EventOK(c, LinkTarget(c, prev', events, 0), events[0]);
  }

  /** The start of one intact chain and the end of another join into an intact chain exactly when the end is empty or
      both cuts come after the same hash. */
  lemma JoinIntact(c: Crypto, a: seq<StoreEvent>, b: seq<StoreEvent>, i: nat, j: nat)
    requires ChainOK(c, a) && ChainOK(c, b) && i <= |a| && j <= |b|
    ensures ChainOK(c, a[..i] + b[j..]) <==> j == |b| || Tip(c, a[..i]) == Tip(c, b[..j])
  {
    hide ChainOK, Tip, LinksBehind;
    assert a == a[..i] + a[i..] && b == b[..j] + b[j..];
    ChainAppend(c, a[..i], a[i..]);
    ChainAppend(c, b[..j], b[j..]);
    ChainAppend(c, a[..i], b[j..]);
    if j == |b| {
      NothingLinks(c, Tip(c, a[..i]));
    } else if LinksBehind(c, Tip(c, a[..i]), b[j..]) {
      OneTarget(c, Tip(c, a[..i]), Tip(c, b[..j]), b[j..]);
    }
  }

  lemma NothingLinks(c: Crypto, prev: Digest)
    ensures LinksBehind(c, prev, [])
  {
  }

  /** Which rows of an intact chain can be taken out unnoticed: those at its tail, and those between two places that
      come after the same hash, such as two equal payloads. Any other removal is noticed. */
  lemma RowsRemovable(c: Crypto, events: seq<StoreEvent>, i: nat, j: nat)
    requires ChainOK(c, events) && i <= j <= |events|
    ensures ChainOK(c, events[..i] + events[j..]) <==> j == |events| || Tip(c, events[..i]) == Tip(c, events[..j])
  {
    hide ChainOK, Tip;
    JoinIntact(c, events, events, i, j);
  }

  /** Two intact chains that pass through the same payload hash can be spliced there, and the
      splice verifies: an accepted list need not be a prefix of any one chain. */
  lemma SplicedChainAccepted(c: Crypto, a: seq<StoreEvent>, b: seq<StoreEvent>, i: nat, j: nat)
    requires ChainOK(c, a) && ChainOK(c, b) && i < |a| && j < |b|
    requires c.hash(a[i].payloadJSON) == c.hash(b[j].payloadJSON)
    ensures ChainOK(c, a[..i + 1] + b[j + 1..])
  {
    hide ChainOK;
    JoinIntact(c, a, b, i + 1, j + 1);
  }
}
