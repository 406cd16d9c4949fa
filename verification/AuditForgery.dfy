/** What a list of events that passes verification can be, when the only signatures in existence
    are those `Emit` made. The list itself is arbitrary: rows may have been dropped, reordered,
    duplicated, copied between runs or rewritten. */
module AuditForgery {
  import opened AuditChain
  import opened AuditStore
  import opened AuditReplay
  import opened AuditEngine

  /** `Emit` linked a payload of hash `h` behind `prev`. */
  ghost predicate Linked(c: Crypto, signed: seq<Signing>, prev: Digest, h: Digest) {
    exists g :: g in signed && g.prev == prev && c.hash(g.payload) == h
  }

  /** Ed25519 as an ideal scheme: no signature in `events` verifies for an input that was never signed. */
  ghost predicate Unforgeable(c: Crypto, signed: seq<Signing>, events: seq<StoreEvent>) {
    forall i, prev: Digest, h: Digest ::
      0 <= i < |events| && HexDecode(events[i].signature).Some?
      && c.verify(SigningInput(prev, h), HexDecode(events[i].signature).value)
      ==> Linked(c, signed, prev, h)
  }

  /** An accepted list is a walk from genesis along links that `Emit` signed. */
  lemma AcceptedIsSignedWalk(c: Crypto, signed: seq<Signing>, events: seq<StoreEvent>, i: nat)
    requires ChainOK(c, events) && Unforgeable(c, signed, events) && i < |events|
    ensures Linked(c, signed, Tip(c, events[..i]), c.hash(events[i].payloadJSON))
  {
    assert EventOK(c, Tip(c, events[..i]), events[i]);
  }

  /** Same payload hashes, position by position. */
  ghost predicate SamePayloads(c: Crypto, events: seq<StoreEvent>, chain: seq<StoreEvent>) {
    |events| == |chain| && forall i :: 0 <= i < |events| ==> c.hash(events[i].payloadJSON) == c.hash(chain[i].payloadJSON)
  }

  /** `events` reads like the first rows of `g`'s run followed by the event `g` signed for the next place. */
  ghost predicate FollowsRun(c: Crypto, s: System, events: seq<StoreEvent>, g: Signing) {
    && |events| > 0 && g in s.signed && g.pos == |events| - 1 <= |Listing(s.rows, g.run)|
    && SamePayloads(c, events[..g.pos], Listing(s.rows, g.run)[..g.pos])
    && c.hash(events[g.pos].payloadJSON) == c.hash(g.payload)
  }

  /** The row a signing links to was itself signed, at the place before. */
  lemma PredecessorSigned(c: Crypto, s: System, g: Signing)
    requires Inv(c, s) && g in s.signed && g.pos > 0
    ensures g.pos <= |Listing(s.rows, g.run)|
    ensures exists p :: p in s.signed && p.run == g.run && p.pos == g.pos - 1
                        && p.payload == Listing(s.rows, g.run)[g.pos - 1].payloadJSON
                        && c.hash(p.payload) == g.prev
  {
    hide Listing, ChainOK, PcOK;
    var chain := Listing(s.rows, g.run);
    assert SigningOK(c, s, g) && RowsSigned(c, s, g.run);
    assert RowSigned(c, s.signed, g.run, chain, g.pos - 1);
    assert chain[..g.pos][g.pos - 1] == chain[g.pos - 1];
    var p := Signing(g.run, g.pos - 1, Tip(c, chain[..g.pos - 1]), chain[g.pos - 1].payloadJSON);
    assert p in s.signed;
  }

  /** Some run begins with `g`'s payload hash. */
  ghost predicate StartsARun(c: Crypto, s: System, g: Signing) {
    exists g2 :: g2 in s.signed && g2.pos == 0 && c.hash(g2.payload) == c.hash(g.payload)
  }

  /** `g2` has `g`'s payload hash, and comes in its run after what came before `p` in `p`'s run, and then `p`. */
  ghost predicate Continues(c: Crypto, s: System, p: Signing, g: Signing, g2: Signing) {
    var before, chain := Listing(s.rows, p.run), Listing(s.rows, g2.run);
    && g2 in s.signed && c.hash(g2.payload) == c.hash(g.payload) && g2.pos == p.pos + 1
    && p.pos <= |before| && p.pos < |chain|
    && SamePayloads(c, chain[..p.pos], before[..p.pos]) && c.hash(chain[p.pos].payloadJSON) == c.hash(p.payload)
  }

  /** Wherever one signing fits behind another by its hashes, some run really goes on that way: payloads may repeat,
      but never so that the history of one run leads into the future of another. */
  ghost predicate NoCrossing(c: Crypto, s: System) {
    && (forall g :: g in s.signed && g.prev == GENESIS_HASH ==> StartsARun(c, s, g))
    && forall p, g :: p in s.signed && g in s.signed && g.prev == c.hash(p.payload) ==>
         exists g2 :: Continues(c, s, p, g, g2)
  }

  ghost predicate Accepted(c: Crypto, s: System, events: seq<StoreEvent>) {
    |events| > 0 && ChainOK(c, events) && Unforgeable(c, s.signed, events)
  }

  ghost predicate FollowsSome(c: Crypto, s: System, events: seq<StoreEvent>) {
    exists g :: FollowsRun(c, s, events, g)
  }

  lemma {:induction false} AcceptedFollowsRun(c: Crypto, s: System, events: seq<StoreEvent>) returns (g: Signing)
    requires NoCrossing(c, s) && Accepted(c, s, events)
    ensures FollowsRun(c, s, events, g)
    decreases |events|
  {
    hide Listing, EventOK, ChainOK, Unforgeable, FollowsRun, NoCrossing;
    var n := |events| - 1;
    AcceptedIsSignedWalk(c, s.signed, events, n);
    var last :| last in s.signed && last.prev == Tip(c, events[..n]) && c.hash(last.payload) == c.hash(events[n].payloadJSON);
    if n > 0 {
      ChainPrefix(c, events, n);
      UnforgedPrefix(c, s.signed, events, n);
      var q := AcceptedFollowsRun(c, s, events[..n]);
      g := FollowsNext(c, s, events, q, last);
    } else {
      g := FollowsFirst(c, s, events, last);
    }
  }

  lemma UnforgedPrefix(c: Crypto, signed: seq<Signing>, events: seq<StoreEvent>, n: nat)
    requires Unforgeable(c, signed, events) && n <= |events|
    ensures Unforgeable(c, signed, events[..n])
  {
    hide Linked;
  }

  lemma FollowsFirst(c: Crypto, s: System, events: seq<StoreEvent>, last: Signing) returns (g: Signing)
    requires NoCrossing(c, s) && last in s.signed && last.prev == GENESIS_HASH
    requires |events| == 1 && c.hash(events[0].payloadJSON) == c.hash(last.payload)
    ensures FollowsRun(c, s, events, g)
  {
    hide Listing;
    assert StartsARun(c, s, last);
    g :| g in s.signed && g.pos == 0 && c.hash(g.payload) == c.hash(last.payload);
  }

  /** If all but the last event follow `q`, and `last` links the last one behind them, some run goes on that way. */
  lemma FollowsNext(c: Crypto, s: System, events: seq<StoreEvent>, q: Signing, last: Signing) returns (g: Signing)
    requires NoCrossing(c, s) && |events| > 1 && last in s.signed && FollowsRun(c, s, events[..|events| - 1], q)
    requires last.prev == c.hash(events[|events| - 2].payloadJSON)
    requires c.hash(last.payload) == c.hash(events[|events| - 1].payloadJSON)
    ensures FollowsRun(c, s, events, g)
  {
    hide Listing, SamePayloads;
    var n := |events| - 1;
    g :| Continues(c, s, q, last, g);
    assert events[..n][..n - 1] == events[..n - 1];
    SameAsSame(c, events[..n - 1], Listing(s.rows, q.run)[..n - 1], Listing(s.rows, g.run)[..n - 1]);
    ExtendPayloads(c, events, Listing(s.rows, g.run), n);
  }

  lemma SameAsSame(c: Crypto, x: seq<StoreEvent>, y: seq<StoreEvent>, z: seq<StoreEvent>)
    requires SamePayloads(c, x, y) && SamePayloads(c, z, y)
    ensures SamePayloads(c, x, z)
  {
  }

  // ---------------------------------------------------------------- distinct hashes are enough

  /** No two signed payloads share a hash, and none hashes to the genesis sentinel. */
  ghost predicate DistinctHashes(c: Crypto, signed: seq<Signing>) {
    && (forall i, j :: 0 <= i < j < |signed| ==> c.hash(signed[i].payload) != c.hash(signed[j].payload))
    && (forall i :: 0 <= i < |signed| ==> c.hash(signed[i].payload) != GENESIS_HASH)
  }

  /** A signing past the start of its run links to a signed payload, so not to genesis. */
  lemma NotGenesis(c: Crypto, s: System, g: Signing)
    requires Inv(c, s) && DistinctHashes(c, s.signed) && g in s.signed && g.pos > 0
    ensures g.prev != GENESIS_HASH
  {
    hide Listing, Inv;
    PredecessorSigned(c, s, g);
  }

  lemma SameSigning(c: Crypto, signed: seq<Signing>, p: Signing, q: Signing)
    requires DistinctHashes(c, signed) && p in signed && q in signed && c.hash(p.payload) == c.hash(q.payload)
    ensures p == q && c.hash(p.payload) != GENESIS_HASH
  {
  }

  lemma ContinuesItself(c: Crypto, s: System, p: Signing, g: Signing)
    requires Inv(c, s) && DistinctHashes(c, s.signed) && p in s.signed && g in s.signed && g.prev == c.hash(p.payload)
    ensures Continues(c, s, p, g, g)
  {
    hide Listing, Inv, DistinctHashes;
    SameSigning(c, s.signed, p, p);
    if g.pos == 0 {
      GenesisPlace(c, s, g);
    } else {
      PredecessorSigned(c, s, g);
      var q :| q in s.signed && q.run == g.run && q.pos == g.pos - 1
               && q.payload == Listing(s.rows, g.run)[g.pos - 1].payloadJSON && c.hash(q.payload) == g.prev;
      SameSigning(c, s.signed, p, q);
    }
  }

  lemma DistinctNeverCross(c: Crypto, s: System)
    requires Inv(c, s) && DistinctHashes(c, s.signed)
    ensures NoCrossing(c, s)
  {
    hide Listing, Inv, DistinctHashes, Continues;
    forall g | g in s.signed && g.prev == GENESIS_HASH ensures StartsARun(c, s, g) {
      if g.pos > 0 { NotGenesis(c, s, g); }
    }
    forall p, g | p in s.signed && g in s.signed && g.prev == c.hash(p.payload)
      ensures exists g2 :: Continues(c, s, p, g, g2)
    {
      ContinuesItself(c, s, p, g);
    }
  }

  // ---------------------------------------------------------------- and no crossing is exactly what it takes

  /** Both halves of an ideal scheme: every signature verifies, and for no input but its own. */
  ghost predicate Ideal(c: Crypto) {
    c.SignaturesVerify() && forall input: Bytes, other: Bytes :: c.verify(input, c.sign(other)) ==> input == other
  }

  /** A run's chain when its payloads are emitted one after the other, with ids from `first` on. */
  ghost function ChainOf(c: Crypto, run: string, payloads: seq<string>, first: nat): seq<StoreEvent> {
    if payloads == [] then []
    else
      var before := ChainOf(c, run, payloads[..|payloads| - 1], first);
      before + [NewRow(c, run, payloads[|payloads| - 1], Tip(c, before), "", first + |payloads| - 1, 0)]
  }

  lemma {:induction false} ChainOfPayloads(c: Crypto, run: string, payloads: seq<string>, first: nat)
    ensures var chain := ChainOf(c, run, payloads, first);
            |chain| == |payloads| && forall i :: 0 <= i < |chain| ==> chain[i].payloadJSON == payloads[i]
  {
    hide NewRow, Tip;
    if payloads != [] {
      var before := ChainOf(c, run, payloads[..|payloads| - 1], first);
      ChainOfPayloads(c, run, payloads[..|payloads| - 1], first);
      RowPayload(c, run, payloads[|payloads| - 1], Tip(c, before), first + |payloads| - 1);
    }
  }

  lemma RowPayload(c: Crypto, run: string, payload: string, prev: Digest, id: nat)
    ensures NewRow(c, run, payload, prev, "", id, 0).payloadJSON == payload
  {
  }

  /** What payload k of a list links behind. */
  function TargetOf(c: Crypto, payloads: seq<string>, k: nat): Digest
    requires k <= |payloads|
  {
    if k == 0 then GENESIS_HASH else c.hash(payloads[k - 1])
  }

  /** `Emit` made every link of the list. */
  ghost predicate AllLinked(c: Crypto, signed: seq<Signing>, payloads: seq<string>) {
    forall k :: 0 <= k < |payloads| ==> Linked(c, signed, TargetOf(c, payloads, k), c.hash(payloads[k]))
  }

  /** Payloads whose links were all signed make a list that verifies and holds nothing forged, whichever calls the
      signatures came from. */
  lemma {:induction false} LinkedPayloadsAccepted(c: Crypto, signed: seq<Signing>, run: string, payloads: seq<string>)
    requires Ideal(c) && AllLinked(c, signed, payloads)
    ensures var chain := ChainOf(c, run, payloads, 0); ChainOK(c, chain) && Unforgeable(c, signed, chain)
  {
    hide Ideal, ChainOK, Unforgeable, NewRow, Linked, Tip, AllLinked;
    if payloads == [] {
      NothingForged(c, signed);
    } else {
      var n := |payloads| - 1;
      var front, last := payloads[..n], payloads[n];
      LinkedPrefix(c, signed, payloads, n);
      LinkedPayloadsAccepted(c, signed, run, front);
      var before := ChainOf(c, run, front, 0);
      ChainOfPayloads(c, run, front, 0);
      TipOfPayloads(c, before, payloads, n);
      IdealVerifies(c);
      NewRowLinks(c, run, last, Tip(c, before), "", n, 0);
      var row := NewRow(c, run, last, Tip(c, before), "", n, 0);
      ChainExtend(c, before, row);
      LinkAt(c, signed, payloads, n);
      OneMoreUnforged(c, signed, before, run, last, Tip(c, before), n);
    }
  }

  lemma IdealVerifies(c: Crypto)
    requires Ideal(c)
    ensures c.SignaturesVerify()
  {
  }

  lemma LinkAt(c: Crypto, signed: seq<Signing>, payloads: seq<string>, k: nat)
    requires AllLinked(c, signed, payloads) && k < |payloads|
    ensures Linked(c, signed, TargetOf(c, payloads, k), c.hash(payloads[k]))
  {
  }

  lemma LinkedPrefix(c: Crypto, signed: seq<Signing>, payloads: seq<string>, n: nat)
    requires AllLinked(c, signed, payloads) && n <= |payloads|
    ensures AllLinked(c, signed, payloads[..n])
  {
    hide Linked;
    forall k | 0 <= k < n ensures Linked(c, signed, TargetOf(c, payloads[..n], k), c.hash(payloads[..n][k])) {
      LinkAt(c, signed, payloads, k);
    }
  }

  lemma TipOfPayloads(c: Crypto, chain: seq<StoreEvent>, payloads: seq<string>, n: nat)
    requires |chain| == n <= |payloads| && forall i :: 0 <= i < n ==> chain[i].payloadJSON == payloads[i]
    ensures Tip(c, chain) == TargetOf(c, payloads, n)
  {
  }

  lemma NothingForged(c: Crypto, signed: seq<Signing>)
    ensures ChainOK(c, []) && Unforgeable(c, signed, [])
  {
  }

  lemma OneMoreUnforged(c: Crypto, signed: seq<Signing>, before: seq<StoreEvent>, run: string, payload: string,
                        target: Digest, id: nat)
    requires Ideal(c) && Unforgeable(c, signed, before) && Linked(c, signed, target, c.hash(payload))
    ensures Unforgeable(c, signed, before + [NewRow(c, run, payload, target, "", id, 0)])
  {
    hide Linked, HexDecode, HexEncode;
    var row := NewRow(c, run, payload, target, "", id, 0);
    HexRoundTrip(c.sign(SigningInput(target, c.hash(payload))));
    forall i, prev: Digest, h: Digest |
      0 <= i < |before + [row]| && HexDecode((before + [row])[i].signature).Some?
      && c.verify(SigningInput(prev, h), HexDecode((before + [row])[i].signature).value)
      ensures Linked(c, signed, prev, h)
    {
      if i < |before| {
        assert (before + [row])[i] == before[i];
      } else {
        SigningInputInjective(prev, h, target, c.hash(payload));
      }
    }
  }

  /** The payloads of the rows before `p`, then `p`'s, then `g`'s. */
  function Crossing(rows: seq<StoreEvent>, p: Signing, g: Signing): (payloads: seq<string>)
    requires p.pos <= |rows|
    ensures |payloads| == p.pos + 2 && payloads[p.pos] == p.payload && payloads[p.pos + 1] == g.payload
    ensures forall k :: 0 <= k < p.pos ==> payloads[k] == rows[k].payloadJSON
  {
    seq(p.pos, k requires 0 <= k < p.pos <= |rows| => rows[k].payloadJSON) + [p.payload, g.payload]
  }

  lemma CrossingLinked(c: Crypto, s: System, p: Signing, g: Signing)
    requires Inv(c, s) && p in s.signed && g in s.signed && g.prev == c.hash(p.payload)
    ensures p.pos <= |Listing(s.rows, p.run)| && AllLinked(c, s.signed, Crossing(Listing(s.rows, p.run), p, g))
  {
    hide Inv, Listing, Linked, Tip, TargetOf, RowSigned;
    var chain := Listing(s.rows, p.run);
    PlacesSigned(c, s, p);
    var payloads := Crossing(chain, p, g);
    forall k | 0 <= k < |payloads| ensures Linked(c, s.signed, TargetOf(c, payloads, k), c.hash(payloads[k])) {
      if k < p.pos {
        RowLinked(c, s.signed, p.run, chain, payloads, k);
      } else if k == p.pos {
        TipOfPayloads(c, chain[..k], payloads, k);
        ThatLinked(c, s.signed, p);
      } else {
        AfterPayload(c, payloads, k);
        ThatLinked(c, s.signed, g);
      }
    }
  }

  lemma PlacesSigned(c: Crypto, s: System, p: Signing)
    requires Inv(c, s) && p in s.signed
    ensures SigningOK(c, s, p)
    ensures forall k :: 0 <= k < |Listing(s.rows, p.run)| ==> RowSigned(c, s.signed, p.run, Listing(s.rows, p.run), k)
  {
    hide Listing, ChainOK, PcOK, UniqueIds;
    assert RowsSigned(c, s, p.run);
  }

  lemma AfterPayload(c: Crypto, payloads: seq<string>, k: nat)
    requires 0 < k <= |payloads|
    ensures TargetOf(c, payloads, k) == c.hash(payloads[k - 1])
  {
  }

  lemma RowLinked(c: Crypto, signed: seq<Signing>, run: string, chain: seq<StoreEvent>, payloads: seq<string>, k: nat)
    requires k < |chain| && k < |payloads| && RowSigned(c, signed, run, chain, k)
    requires forall i :: 0 <= i <= k ==> chain[i].payloadJSON == payloads[i]
    ensures Linked(c, signed, TargetOf(c, payloads, k), c.hash(payloads[k]))
  {
    TipOfPayloads(c, chain[..k], payloads, k);
    ThatLinked(c, signed, Signing(run, k, Tip(c, chain[..k]), chain[k].payloadJSON));
  }

  lemma ThatLinked(c: Crypto, signed: seq<Signing>, g: Signing)
    requires g in signed
    ensures Linked(c, signed, g.prev, c.hash(g.payload))
  {
  }

  /** If every accepted list follows some run, so does the one that crosses from `p` to `g`. */
  lemma CrossingFollows(c: Crypto, s: System, p: Signing, g: Signing) returns (g2: Signing)
    requires Inv(c, s) && Ideal(c) && p in s.signed && g in s.signed && g.prev == c.hash(p.payload)
    requires forall events :: Accepted(c, s, events) ==> FollowsSome(c, s, events)
    ensures Continues(c, s, p, g, g2)
  {
    hide Listing, Inv, Ideal, ChainOK, Unforgeable, AllLinked, ChainOf, FollowsRun, Continues;
    CrossingLinked(c, s, p, g);
    var payloads := Crossing(Listing(s.rows, p.run), p, g);
    LinkedPayloadsAccepted(c, s.signed, "", payloads);
    ChainOfPayloads(c, "", payloads, 0);
    var events := ChainOf(c, "", payloads, 0);
    assert Accepted(c, s, events);
    g2 :| FollowsRun(c, s, events, g2);
    ContinuesBy(c, s, p, g, g2, events);
  }

  lemma ContinuesBy(c: Crypto, s: System, p: Signing, g: Signing, g2: Signing, events: seq<StoreEvent>)
    requires p.pos <= |Listing(s.rows, p.run)| && |events| == p.pos + 2
    requires forall k :: 0 <= k < |events| ==> events[k].payloadJSON == Crossing(Listing(s.rows, p.run), p, g)[k]
    requires FollowsRun(c, s, events, g2)
    ensures Continues(c, s, p, g, g2)
  {
    hide Listing;
    var before, chain := Listing(s.rows, p.run), Listing(s.rows, g2.run);
    forall k | 0 <= k < p.pos + 1 ensures c.hash(events[k].payloadJSON) == c.hash(chain[k].payloadJSON) {
      assert events[..g2.pos][k] == events[k] && chain[..g2.pos][k] == chain[k];
    }
  }

  /** If every accepted list follows some run, so does the one event that `g` linked behind genesis. */
  lemma StartFollows(c: Crypto, s: System, g: Signing)
    requires Ideal(c) && g in s.signed && g.prev == GENESIS_HASH
    requires forall events :: Accepted(c, s, events) ==> FollowsSome(c, s, events)
    ensures StartsARun(c, s, g)
  {
    hide Listing, Ideal, ChainOK, Unforgeable, ChainOf;
    ThatLinked(c, s.signed, g);
    assert AllLinked(c, s.signed, [g.payload]);
    LinkedPayloadsAccepted(c, s.signed, "", [g.payload]);
    ChainOfPayloads(c, "", [g.payload], 0);
    var events := ChainOf(c, "", [g.payload], 0);
    assert Accepted(c, s, events);
    var g2 :| FollowsRun(c, s, events, g2);
  }

  /** Whether every list that verifies, with nothing in it forged, reads like a run: exactly when no history of one
      run leads into the future of another. */
  lemma NoCrossingIsExact(c: Crypto, s: System)
    requires Inv(c, s) && Ideal(c)
    ensures NoCrossing(c, s) <==> forall events :: Accepted(c, s, events) ==> FollowsSome(c, s, events)
  {
    hide Listing, Inv, Ideal, Accepted, FollowsRun, Continues, StartsARun;
    if NoCrossing(c, s) {
      forall events | Accepted(c, s, events) ensures FollowsSome(c, s, events) {
        var g := AcceptedFollowsRun(c, s, events);
      }
    }
    if forall events :: Accepted(c, s, events) ==> FollowsSome(c, s, events) {
      forall g | g in s.signed && g.prev == GENESIS_HASH ensures StartsARun(c, s, g) { StartFollows(c, s, g); }
      forall p, g | p in s.signed && g in s.signed && g.prev == c.hash(p.payload)
        ensures exists g2 :: Continues(c, s, p, g, g2)
      {
        var g2 := CrossingFollows(c, s, p, g);
      }
    }
  }

  lemma GenesisPlace(c: Crypto, s: System, g: Signing)
    requires Inv(c, s) && g in s.signed && g.pos == 0
    ensures g.prev == GENESIS_HASH
  {
    assert SigningOK(c, s, g);
  }

  lemma ExtendPayloads(c: Crypto, events: seq<StoreEvent>, chain: seq<StoreEvent>, n: nat)
    requires 0 < n <= |events| && n <= |chain|
    requires SamePayloads(c, events[..n - 1], chain[..n - 1])
    requires c.hash(events[n - 1].payloadJSON) == c.hash(chain[n - 1].payloadJSON)
    ensures SamePayloads(c, events[..n], chain[..n])
  {
    forall i | 0 <= i < n ensures c.hash(events[..n][i].payloadJSON) == c.hash(chain[..n][i].payloadJSON) {
      if i < n - 1 {
        assert c.hash(events[..n - 1][i].payloadJSON) == c.hash(chain[..n - 1][i].payloadJSON);
      }
    }
  }

  /** The signing reached the table. */
  ghost predicate Inserted(s: System, g: Signing) {
    g.pos < |Listing(s.rows, g.run)| && Listing(s.rows, g.run)[g.pos].payloadJSON == g.payload
  }

  /** `events` reads like the first rows of one run. */
  ghost predicate RunPrefix(c: Crypto, s: System, events: seq<StoreEvent>, run: string) {
    |events| <= |Listing(s.rows, run)| && SamePayloads(c, events, Listing(s.rows, run)[..|events|])
  }

  ghost predicate PrefixOfSome(c: Crypto, s: System, events: seq<StoreEvent>) {
    exists run :: RunPrefix(c, s, events, run)
  }

  /** A list reads like the beginning of a stored chain exactly when it follows some run and the last event's signing
      was stored there. This takes no assumption about hashes. */
  lemma PrefixMeansStored(c: Crypto, s: System, events: seq<StoreEvent>)
    requires Inv(c, s) && |events| > 0
    ensures PrefixOfSome(c, s, events) <==> exists g :: FollowsRun(c, s, events, g) && Inserted(s, g)
  {
    hide Listing, Inv, RunPrefix, FollowsRun;
    if g :| FollowsRun(c, s, events, g) && Inserted(s, g) {
      InsertedIsPrefix(c, s, events, g);
    }
    if run :| RunPrefix(c, s, events, run) {
      var g := StoredSigning(c, s, events, run);
    }
  }

  lemma InsertedIsPrefix(c: Crypto, s: System, events: seq<StoreEvent>, g: Signing)
    requires FollowsRun(c, s, events, g) && Inserted(s, g)
    ensures RunPrefix(c, s, events, g.run)
  {
    hide Listing;
    ExtendPayloads(c, events, Listing(s.rows, g.run), |events|);
    assert events[..|events|] == events;
  }

  /** The row that stands where the list ends was signed for that place. */
  lemma StoredSigning(c: Crypto, s: System, events: seq<StoreEvent>, run: string) returns (g: Signing)
    requires Inv(c, s) && |events| > 0 && RunPrefix(c, s, events, run)
    ensures FollowsRun(c, s, events, g) && Inserted(s, g)
  {
    hide Listing, ChainOK, PcOK, SigningOK, UniqueIds;
    var n, chain := |events| - 1, Listing(s.rows, run);
    assert chain[..|events|][n] == chain[n];
    assert RowsSigned(c, s, run) && RowSigned(c, s.signed, run, chain, n);
    g := Signing(run, n, Tip(c, chain[..n]), chain[n].payloadJSON);
    assert g in s.signed;
    forall i | 0 <= i < n ensures c.hash(events[..n][i].payloadJSON) == c.hash(chain[..n][i].payloadJSON) {
      assert chain[..|events|][i] == chain[i];
    }
  }

  /** At any moment of any interleaving in which no histories cross: a non-empty list that verifies is, payload hash
      by payload hash, the beginning of one single run's chain followed by an event that `Emit` signed for the next
      place. It is a prefix of a stored chain exactly when such a last event was stored. With distinct hashes there
      is only one candidate for it. */
  lemma AcceptedIsRunPrefix(c: Crypto, trace: seq<System>, steps: seq<Step>, i: nat, events: seq<StoreEvent>)
    returns (g: Signing)
    requires c.SignaturesVerify() && IsRun(c, trace, steps) && i < |trace|
    requires NoCrossing(c, trace[i]) && Accepted(c, trace[i], events)
    ensures FollowsRun(c, trace[i], events, g)
    ensures PrefixOfSome(c, trace[i], events) <==> exists h :: FollowsRun(c, trace[i], events, h) && Inserted(trace[i], h)
    ensures DistinctHashes(c, trace[i].signed) ==> (PrefixOfSome(c, trace[i], events) <==> Inserted(trace[i], g))
  {
    hide Listing, Inv, ChainOK, DistinctHashes, PrefixOfSome, FollowsRun, Unforgeable, NoCrossing, Inserted;
    var s := trace[i];
    RunInv(c, trace, steps, i);
    g := AcceptedFollowsRun(c, s, events);
    PrefixMeansStored(c, s, events);
    if DistinctHashes(c, s.signed) {
      forall h | FollowsRun(c, s, events, h) ensures h == g { OneLastEvent(c, s, events, g, h); }
    }
  }

  lemma OneLastEvent(c: Crypto, s: System, events: seq<StoreEvent>, g: Signing, h: Signing)
    requires DistinctHashes(c, s.signed) && FollowsRun(c, s, events, g) && FollowsRun(c, s, events, h)
    ensures g == h
  {
    hide Listing, SamePayloads, DistinctHashes;
    SameSigning(c, s.signed, g, h);
  }

  /** Why the hashes have to be distinct: two runs that agree on one payload in the middle and differ on
      both sides of it give a list that verifies, needs no forged signature, and is a prefix of neither. */
  lemma RepeatedPayloadAdmitsSplice(c: Crypto, signed: seq<Signing>, a: seq<StoreEvent>, b: seq<StoreEvent>, i: nat)
    requires ChainOK(c, a) && Unforgeable(c, signed, a) && ChainOK(c, b) && Unforgeable(c, signed, b)
    requires 0 < i < |a| - 1 && |a| == |b|
    requires c.hash(a[i].payloadJSON) == c.hash(b[i].payloadJSON)
    requires c.hash(a[i - 1].payloadJSON) != c.hash(b[i - 1].payloadJSON)
    requires c.hash(a[i + 1].payloadJSON) != c.hash(b[i + 1].payloadJSON)
    ensures var spliced := a[..i + 1] + b[i + 1..];
            && ChainOK(c, spliced) && Unforgeable(c, signed, spliced)
            && !SamePayloads(c, spliced, a) && !SamePayloads(c, spliced, b)
  {
    hide ChainOK, Linked;
    SplicedChainAccepted(c, a, b, i, i);
    var spliced := a[..i + 1] + b[i + 1..];
    assert forall k :: 0 <= k < |spliced| ==> spliced[k] == a[k] || spliced[k] == b[k];
    assert spliced[i - 1] == a[i - 1] && spliced[i + 1] == b[i + 1];
  }
}
