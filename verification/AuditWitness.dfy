/** Reachable states that show the hypotheses about accepted lists hold together, and are needed. Every payload in
    them is a canonical text that `Emit` can write. */
module AuditWitness {
  import opened Text
  import opened AuditChain
  import opened AuditStore
  import opened AuditReplay
  import opened AuditEngine
  import opened AuditForgery
  import CanonicalJson

  // ---------------------------------------------------------------- whole calls, one after the other

  /** Goroutine 0 is outside `Emit`, nobody holds the run's lock, and every id is below `id`. */
  ghost predicate Resting(s: System, run: string, id: nat) {
    PcOf(s, 0) == Idle && run !in s.locks && forall e :: e in s.rows ==> e.id < id
  }

  /** The row and the signing of a call that starts in `s`. */
  ghost function RowFor(c: Crypto, s: System, run: string, payload: string, id: nat): StoreEvent {
    NewRow(c, run, payload, Tip(c, Listing(s.rows, run)), "", id, 0)
  }

  ghost function SigningFor(c: Crypto, s: System, run: string, payload: string): Signing {
    Signing(run, |Listing(s.rows, run)|, Tip(c, Listing(s.rows, run)), payload)
  }

  lemma LastBelow(rows: seq<StoreEvent>, run: string, id: nat)
    requires UniqueIds(rows) && forall e :: e in rows ==> e.id < id
    ensures IdAfter(rows, run, id) && !HasId(rows, id)
  {
    ListingIsSortedSelection(rows, run);
    var chain := Listing(rows, run);
    if chain != [] { assert chain[|chain| - 1] in chain; }
  }

  /** One call from lock to unlock; its signature exists whether or not its insert fails. */
  lemma OneCall(c: Crypto, s: System, run: string, payload: string, id: nat, fault: bool) returns (s': System)
    requires c.SignaturesVerify() && Reachable(c, s) && Resting(s, run, id)
    ensures Reachable(c, s') && PcOf(s', 0) == Idle && s'.locks == s.locks
    ensures s'.signed == s.signed + [SigningFor(c, s, run, payload)]
    ensures s'.rows == if fault then s.rows else s.rows + [RowFor(c, s, run, payload, id)]
  {
    hide Listing, NewRow, IdAfter, HasId, Inv, PrevHash, LastOf, Tip, Reachable, UniqueIds;
    ReachableInv(c, s);
    ChainInState(c, s, run);
    LastBelow(s.rows, run, id);
    PrevHashIsTip(c, Listing(s.rows, run));
    NewRowIdentity(c, run, payload, Tip(c, Listing(s.rows, run)), "", id, 0);
    var signing := SignedCall(c, s, run, payload, id);
    StepReachable(c, signing, Insert(0, fault));
    var inserted := Apply(c, signing, Insert(0, fault));
    StepReachable(c, inserted, Unlock(0));
    s' := Apply(c, inserted, Unlock(0));
    assert s'.locks == s.locks;
  }

  lemma ChainInState(c: Crypto, s: System, run: string)
    requires Inv(c, s)
    ensures ChainOK(c, Listing(s.rows, run)) && UniqueIds(s.rows)
  {
  }

  /** The first half of a call, up to the signature. */
  lemma SignedCall(c: Crypto, s: System, run: string, payload: string, id: nat) returns (s': System)
    requires Reachable(c, s) && PcOf(s, 0) == Idle && run !in s.locks
    requires PrevHash(LastOf(Listing(s.rows, run))) == Some(Tip(c, Listing(s.rows, run))) && IdAfter(s.rows, run, id)
    ensures Reachable(c, s') && s'.locks == s.locks[run := 0] && s'.rows == s.rows
    ensures s'.signed == s.signed + [SigningFor(c, s, run, payload)]
    ensures PcOf(s', 0) == Ready(Call(run, Some(payload)), Listing(s.rows, run), RowFor(c, s, run, payload, id))
  {
    hide Listing, NewRow, IdAfter, HasId, PrevHash, LastOf, Tip, Reachable;
    var call := Call(run, Some(payload));
    StepReachable(c, s, Begin(0, call));
    var s1 := Apply(c, s, Begin(0, call));
    StepReachable(c, s1, Acquire(0));
    var s2 := Apply(c, s1, Acquire(0));
    StepReachable(c, s2, ReadTip(0, false));
    var s3 := Apply(c, s2, ReadTip(0, false));
    StepReachable(c, s3, SignRow(0, "", id, 0));
    s' := Apply(c, s3, SignRow(0, "", id, 0));
  }

  ghost predicate Signs(g: Signing, run: string, pos: nat, payload: string) {
    g.run == run && g.pos == pos && g.payload == payload
  }

  /** From `s` to `s'` the run stores exactly the chain of its payloads, and nothing else happens. */
  ghost predicate Emitted(c: Crypto, s: System, s': System, run: string, payloads: seq<string>, first: nat) {
    && PcOf(s', 0) == Idle && s'.locks == s.locks
    && (forall e :: e in s'.rows ==> e.id < first + |payloads|)
    && Listing(s'.rows, run) == ChainOf(c, run, payloads, first)
    && (forall r :: r != run ==> Listing(s'.rows, r) == Listing(s.rows, r))
    && AllSigned(s.signed, s'.signed, run, payloads)
  }

  /** The signings added are those of the payloads, in order. */
  ghost predicate AllSigned(before: seq<Signing>, after: seq<Signing>, run: string, payloads: seq<string>) {
    && |after| == |before| + |payloads| && after[..|before|] == before
    && forall i :: 0 <= i < |payloads| ==> Signs(after[|before| + i], run, i, payloads[i])
  }

  /** Any payloads at all can be a run: some interleaving stores exactly their chain. */
  lemma {:induction false} EmitAll(c: Crypto, s: System, run: string, payloads: seq<string>, first: nat) returns (s': System)
    requires c.SignaturesVerify() && Reachable(c, s) && Listing(s.rows, run) == []
    requires PcOf(s, 0) == Idle && run !in s.locks && forall e :: e in s.rows ==> e.id < first
    ensures Reachable(c, s') && Emitted(c, s, s', run, payloads, first)
    decreases |payloads|
  {
    hide Listing, Reachable, Emitted;
    if payloads == [] {
      s' := s;
      NothingEmitted(c, s, run, first);
    } else {
      var s1 := EmitAll(c, s, run, payloads[..|payloads| - 1], first);
      s' := EmitNext(c, s, s1, run, payloads, first);
    }
  }

  lemma NothingEmitted(c: Crypto, s: System, run: string, first: nat)
    requires Listing(s.rows, run) == [] && PcOf(s, 0) == Idle && forall e :: e in s.rows ==> e.id < first
    ensures Emitted(c, s, s, run, [], first)
  {
    hide Listing;
  }

  lemma EmitNext(c: Crypto, s: System, s1: System, run: string, payloads: seq<string>, first: nat) returns (s': System)
    requires c.SignaturesVerify() && Reachable(c, s1) && run !in s.locks
    requires payloads != [] && Emitted(c, s, s1, run, payloads[..|payloads| - 1], first)
    ensures Reachable(c, s') && Emitted(c, s, s', run, payloads, first)
  {
    hide Listing, Reachable, Resting, SigningFor, RowFor, ChainOf, AllSigned;
    var front, last := payloads[..|payloads| - 1], payloads[|payloads| - 1];
    StillResting(s1, run, first + |front|);
    s' := OneStored(c, s1, run, last, first + |front|);
    ChainGrows(c, s1, run, payloads, first);
    SignsFor(c, s1, run, last);
    ChainOfPayloads(c, run, front, first);
    SignsGrow(s.signed, s1.signed, s'.signed, run, payloads);
  }

  lemma ChainGrows(c: Crypto, s: System, run: string, payloads: seq<string>, first: nat)
    requires payloads != [] && Listing(s.rows, run) == ChainOf(c, run, payloads[..|payloads| - 1], first)
    ensures ChainOf(c, run, payloads, first) ==
            Listing(s.rows, run) + [RowFor(c, s, run, payloads[|payloads| - 1], first + |payloads| - 1)]
  {
    hide Listing, NewRow, Tip;
  }

  lemma SignsGrow(signed: seq<Signing>, signed1: seq<Signing>, signed': seq<Signing>, run: string, payloads: seq<string>)
    requires payloads != [] && AllSigned(signed, signed1, run, payloads[..|payloads| - 1])
    requires |signed'| == |signed1| + 1 && signed'[..|signed1|] == signed1
    requires Signs(signed'[|signed1|], run, |payloads| - 1, payloads[|payloads| - 1])
    ensures AllSigned(signed, signed', run, payloads)
  {
    hide Signs;
    var front := payloads[..|payloads| - 1];
    assert signed'[..|signed1|][..|signed|] == signed'[..|signed|];
    forall i | 0 <= i < |payloads| ensures Signs(signed'[|signed| + i], run, i, payloads[i]) {
      if i < |front| {
        assert signed'[..|signed1|][|signed| + i] == signed1[|signed| + i] && front[i] == payloads[i];
      }
    }
  }

  lemma StillResting(s: System, run: string, id: nat)
    requires PcOf(s, 0) == Idle && run !in s.locks && forall e :: e in s.rows ==> e.id < id
    ensures Resting(s, run, id)
  {
  }

  lemma SignsFor(c: Crypto, s: System, run: string, payload: string)
    ensures Signs(SigningFor(c, s, run, payload), run, |Listing(s.rows, run)|, payload)
  {
  }

  /** A call that succeeds, seen in the listings. */
  lemma OneStored(c: Crypto, s: System, run: string, payload: string, id: nat) returns (s': System)
    requires c.SignaturesVerify() && Reachable(c, s) && Resting(s, run, id)
    ensures Reachable(c, s') && PcOf(s', 0) == Idle && s'.locks == s.locks
    ensures s'.signed == s.signed + [SigningFor(c, s, run, payload)]
    ensures forall e :: e in s'.rows ==> e.id < id + 1
    ensures forall r :: Listing(s'.rows, r) ==
              if r == run then Listing(s.rows, r) + [RowFor(c, s, run, payload, id)] else Listing(s.rows, r)
  {
    hide Listing, NewRow, Inv, Tip, Reachable, UniqueIds, IdAfter;
    s' := OneCall(c, s, run, payload, id, false);
    NewRowIdentity(c, run, payload, Tip(c, Listing(s.rows, run)), "", id, 0);
    ReachableInv(c, s);
    ChainInState(c, s, run);
    LastBelow(s.rows, run, id);
    forall r { AppendedRow(s.rows, RowFor(c, s, run, payload, id), run, r); }
  }

  lemma AppendedRow(rows: seq<StoreEvent>, row: StoreEvent, run: string, r: string)
    requires row.runID == Some(run) && IdAfter(rows, run, row.id)
    ensures Listing(rows + [row], r) == if r == run then Listing(rows, r) + [row] else Listing(rows, r)
  {
    hide Listing;
    ListingAppend(rows, row, r);
  }

  // ---------------------------------------------------------------- a key for concrete runs

  /** A key whose signatures are the signed inputs themselves, over a hash that reads the first character only.
      Weak as it is, no list below holds a signature it did not make. */
  const TOY: Crypto := Crypto(s => FirstCharacter(s), input => input, (input, sig) => input == sig)

  function FirstCharacter(s: string): Digest {
    [if s == "" then 1 else s[0] as int % 255 + 1] + Zeros(31)
  }

  ghost predicate SignedFor(signed: seq<Signing>, e: StoreEvent) {
    exists g :: g in signed && EventOK(TOY, g.prev, e) && e.payloadJSON == g.payload
  }

  /** Under this key an event says which input it was signed for. */
  lemma NotForged(signed: seq<Signing>, events: seq<StoreEvent>)
    requires forall i :: 0 <= i < |events| ==> SignedFor(signed, events[i])
    ensures Unforgeable(TOY, signed, events)
  {
    hide FirstCharacter;
    forall i, prev: Digest, h: Digest |
      0 <= i < |events| && HexDecode(events[i].signature).Some?
      && TOY.verify(SigningInput(prev, h), HexDecode(events[i].signature).value)
      ensures AuditForgery.Linked(TOY, signed, prev, h)
    {
      assert SignedFor(signed, events[i]);
      var g :| g in signed && EventOK(TOY, g.prev, events[i]) && events[i].payloadJSON == g.payload;
      SigningInputInjective(prev, h, g.prev, TOY.hash(g.payload));
    }
  }

  /** Stored rows are never forged. */
  lemma StoredIsSigned(s: System, run: string, k: nat)
    requires Inv(TOY, s) && k < |Listing(s.rows, run)|
    ensures SignedFor(s.signed, Listing(s.rows, run)[k])
  {
    hide Listing, PcOK, SigningOK, UniqueIds, EventOK;
    var chain := Listing(s.rows, run);
    assert ChainOK(TOY, chain) && RowsSigned(TOY, s, run);
    assert RowSigned(TOY, s.signed, run, chain, k);
    var g := Signing(run, k, Tip(TOY, chain[..k]), chain[k].payloadJSON);
    assert g in s.signed && EventOK(TOY, g.prev, chain[k]);
  }

  lemma ToyVerifies()
    ensures TOY.SignaturesVerify()
  {
  }

  /** The payloads' hashes are told apart by their first characters; none is the genesis value. */
  lemma ToyHash(a: string, b: string)
    requires a != "" && b != ""
    ensures TOY.hash(a) != GENESIS_HASH
    ensures a[0] as int % 255 != b[0] as int % 255 ==> TOY.hash(a) != TOY.hash(b)
  {
    ZerosAt(32, 0);
    assert TOY.hash(a)[0] == a[0] as int % 255 + 1 && TOY.hash(b)[0] == b[0] as int % 255 + 1;
  }

  lemma {:induction false} ZerosAt(n: nat, i: nat)
    requires i < n
    ensures Zeros(n)[i] == 0
  {
    if i > 0 { ZerosAt(n - 1, i - 1); }
  }

  /** Some argument of `Emit` is written as this text. */
  ghost predicate Writable(payload: string) {
    exists arg :: CanonicalJson.WellFormed(CanonicalJson.Tree(arg)) && CanonicalJson.CanonicalText(arg) == Some(payload)
  }

  lemma NumberWritable(token: string)
    requires CanonicalJson.NumberToken(token)
    ensures Writable(token)
  {
    var arg := CanonicalJson.Any(CanonicalJson.Number(token));
    assert CanonicalJson.CanonicalText(arg) == Some(token);
  }

  // ---------------------------------------------------------------- the last event may never have been stored

  /** In any reachable state a call can fail after signing. The run's chain and the event it did not store verify
      together, and no signature among them is forged. */
  lemma UnstoredVerifies(s: System, run: string, payload: string, id: nat) returns (s': System, events: seq<StoreEvent>)
    requires Reachable(TOY, s) && Resting(s, run, id)
    ensures Reachable(TOY, s') && s'.rows == s.rows && s'.signed == s.signed + [SigningFor(TOY, s, run, payload)]
    ensures ChainOK(TOY, events) && Unforgeable(TOY, s'.signed, events) && |events| == |Listing(s.rows, run)| + 1
  {
    hide Listing, NewRow, Inv, Reachable, ChainOK, EventOK, Unforgeable, TOY, SignedFor, Resting;
    ToyVerifies();
    s' := OneCall(TOY, s, run, payload, id, true);
    var chain, last, g := Listing(s.rows, run), RowFor(TOY, s, run, payload, id), SigningFor(TOY, s, run, payload);
    NewRowLinks(TOY, run, payload, g.prev, "", id, 0);
    ReachableInv(TOY, s');
    ChainInState(TOY, s', run);
    ChainExtend(TOY, chain, last);
    events := chain + [last];
    LastIsSigned(s'.signed, g, last);
    forall i | 0 <= i < |events| ensures SignedFor(s'.signed, events[i]) {
      if i < |chain| { StoredIsSigned(s', run, i); }
    }
    NotForged(s'.signed, events);
  }

  /** A call succeeds and the next one signs but fails to insert. The two events together verify, no signature is
      forged and all hashes are distinct; yet the list is a prefix of no run's chain. */
  lemma FailedInsertAccepted() returns (c: Crypto, trace: seq<System>, steps: seq<Step>, events: seq<StoreEvent>)
    ensures c.SignaturesVerify() && IsRun(c, trace, steps)
    ensures var s := trace[|trace| - 1];
            && (forall g :: g in s.signed ==> Writable(g.payload))
            && DistinctHashes(c, s.signed) && |events| == 2 && ChainOK(c, events) && Unforgeable(c, s.signed, events)
            && forall run :: !RunPrefix(c, s, events, run)
  {
    hide Listing, Reachable, ChainOK, Unforgeable, TOY, DistinctHashes, IsRun, RunPrefix, Resting, Writable;
    c := TOY;
    ToyVerifies();
    var s1 := OneEventStored("run", "1");
    var s2;
    s2, events := UnstoredVerifies(s1, "run", "2", 1);
    assert s2.signed[0] == s1.signed[0];
    TwoPayloads(s2.signed, "1", "2");
    NumberWritable("1");
    NumberWritable("2");
    forall run ensures !RunPrefix(c, s2, events, run) { TooLong(c, s2, events, run); }
    trace, steps := WitnessOf(c, s2);
  }

  lemma OneEventStored(run: string, payload: string) returns (s: System)
    ensures Reachable(TOY, s) && Resting(s, run, 1)
    ensures |Listing(s.rows, run)| == 1 && forall r :: r != run ==> Listing(s.rows, r) == []
    ensures |s.signed| == 1 && s.signed[0].payload == payload
  {
    hide Listing, Reachable, TOY, ChainOf;
    ToyVerifies();
    InitReachable(TOY);
    NothingStored();
    s := EmitAll(TOY, INIT, run, [payload], 0);
    ChainOfPayloads(TOY, run, [payload], 0);
    assert Signs(s.signed[|INIT.signed| + 0], run, 0, [payload][0]);
  }

  lemma TooLong(c: Crypto, s: System, events: seq<StoreEvent>, run: string)
    requires |events| > |Listing(s.rows, run)|
    ensures !RunPrefix(c, s, events, run)
  {
  }

  lemma LastIsSigned(signed: seq<Signing>, g: Signing, e: StoreEvent)
    requires g in signed && EventOK(TOY, g.prev, e) && e.payloadJSON == g.payload
    ensures SignedFor(signed, e)
  {
  }

  lemma TwoPayloads(signed: seq<Signing>, a: string, b: string)
    requires |signed| == 2 && signed[0].payload == a && signed[1].payload == b
    requires a != "" && b != "" && a[0] as int % 255 != b[0] as int % 255
    ensures DistinctHashes(TOY, signed)
  {
    hide TOY;
    ToyHash(a, b);
    ToyHash(b, a);
  }

  lemma WitnessOf(c: Crypto, s: System) returns (trace: seq<System>, steps: seq<Step>)
    requires Reachable(c, s)
    ensures IsRun(c, trace, steps) && trace[|trace| - 1] == s
  {
    trace, steps :| Reaches(c, trace, steps, s);
  }

  lemma NothingStored()
    ensures forall run :: Listing([], run) == []
  {
  }

  // ---------------------------------------------------------------- two runs side by side

  ghost predicate ReadsAs(chain: seq<StoreEvent>, payloads: seq<string>) {
    |chain| == |payloads| && forall i :: 0 <= i < |chain| ==> chain[i].payloadJSON == payloads[i]
  }

  /** Run "a" stores the payloads p, then run "b" the payloads q, and nothing else happens. */
  ghost predicate TwoRuns(s: System, p: seq<string>, q: seq<string>) {
    && ReadsAs(Listing(s.rows, "a"), p) && ReadsAs(Listing(s.rows, "b"), q)
    && (forall run :: run != "a" && run != "b" ==> Listing(s.rows, run) == [])
    && |s.signed| == |p| + |q|
    && (forall k :: 0 <= k < |p| ==> Signs(s.signed[k], "a", k, p[k]))
    && forall k :: 0 <= k < |q| ==> Signs(s.signed[|p| + k], "b", k, q[k])
  }

  lemma TwoRunsReachable(p: seq<string>, q: seq<string>) returns (s: System)
    ensures Reachable(TOY, s) && TwoRuns(s, p, q)
  {
    hide Listing, Reachable, TOY, ChainOf, Signs;
    ToyVerifies();
    InitReachable(TOY);
    NothingStored();
    var s1 := EmitAll(TOY, INIT, "a", p, 0);
    s := EmitAll(TOY, s1, "b", q, |p|);
    ChainOfPayloads(TOY, "a", p, 0);
    ChainOfPayloads(TOY, "b", q, |p|);
    forall k | 0 <= k < |p| ensures Signs(s.signed[k], "a", k, p[k]) {
      assert s.signed[..|p|][k] == s1.signed[k] == s1.signed[|INIT.signed| + k];
    }
  }

  /** The signings of two runs, one by one. */
  lemma SigningOfTwo(s: System, p: seq<string>, q: seq<string>, g: Signing)
    requires TwoRuns(s, p, q) && g in s.signed
    ensures (g.run == "a" && g.pos < |p| && g.payload == p[g.pos]) || (g.run == "b" && g.pos < |q| && g.payload == q[g.pos])
  {
    hide Listing;
    var k :| 0 <= k < |s.signed| && s.signed[k] == g;
    if k < |p| {
      assert Signs(s.signed[k], "a", k, p[k]);
    } else {
      assert Signs(s.signed[|p| + (k - |p|)], "b", k - |p|, q[k - |p|]);
    }
  }

  // ---------------------------------------------------------------- histories can cross

  /** Two runs with one payload in common, stored side by side. Their histories cross: their splice verifies and holds
      no forged signature, but it follows no run at all, not even up to its last event. */
  lemma CrossingHappens() returns (c: Crypto, trace: seq<System>, steps: seq<Step>, spliced: seq<StoreEvent>)
    ensures Ideal(c) && IsRun(c, trace, steps)
    ensures var s := trace[|trace| - 1];
            && (forall g :: g in s.signed ==> Writable(g.payload) && c.hash(g.payload) != GENESIS_HASH)
            && (forall e :: e in spliced ==> e in s.rows)
            && Accepted(c, s, spliced) && !FollowsSome(c, s, spliced) && !PrefixOfSome(c, s, spliced)
            && !NoCrossing(c, s)
  {
    hide Listing, Inv, Reachable, ChainOK, Unforgeable, TOY, FollowsRun, RunPrefix, IsRun, NoCrossing, Ideal, Writable;
    c := TOY;
    ToyIdeal();
    ToyVerifies();
    var p, q := ["1", "2", "3"], ["4", "2", "5"];
    var s := TwoRunsReachable(p, q);
    ReachableInv(c, s);
    var a, b := Listing(s.rows, "a"), Listing(s.rows, "b");
    spliced := [a[0], a[1], b[2]];
    SpliceOfStored(s, a, b, spliced);
    forall run ensures !RunPrefix(c, s, spliced, run) { SpliceIsNoPrefix(s, spliced, run); }
    forall g: Signing ensures !FollowsRun(c, s, spliced, g) { SpliceFollowsNothing(s, spliced, g); }
    if NoCrossing(c, s) { var g := AcceptedFollowsRun(c, s, spliced); }
    forall g | g in s.signed ensures Writable(g.payload) && c.hash(g.payload) != GENESIS_HASH {
      SigningOfTwo(s, p, q, g);
      NumberWritable(g.payload);
      ToyHash(g.payload, "0");
    }
    trace, steps := WitnessOf(c, s);
  }

  lemma ToyIdeal()
    ensures Ideal(TOY)
  {
  }

  lemma SpliceOfStored(s: System, a: seq<StoreEvent>, b: seq<StoreEvent>, spliced: seq<StoreEvent>)
    requires Inv(TOY, s) && a == Listing(s.rows, "a") && b == Listing(s.rows, "b") && |a| == |b| == 3
    requires a[1].payloadJSON == b[1].payloadJSON && spliced == [a[0], a[1], b[2]]
    ensures ChainOK(TOY, spliced) && Unforgeable(TOY, s.signed, spliced) && forall e :: e in spliced ==> e in s.rows
  {
    hide Listing, ChainOK, Unforgeable, SignedFor, TOY, Inv;
    ChainInState(TOY, s, "a");
    ChainInState(TOY, s, "b");
    SplicedChainAccepted(TOY, a, b, 1, 1);
    assert a[..2] + b[2..] == spliced;
    StoredIsSigned(s, "a", 0);
    StoredIsSigned(s, "a", 1);
    StoredIsSigned(s, "b", 2);
    NotForged(s.signed, spliced);
    ListingIsSortedSelection(s.rows, "a");
    ListingIsSortedSelection(s.rows, "b");
    assert a[0] in a && a[1] in a && b[2] in b;
  }

  lemma PrefixHash(c: Crypto, s: System, events: seq<StoreEvent>, run: string, k: nat)
    requires k < |events| && RunPrefix(c, s, events, run)
    ensures k < |Listing(s.rows, run)| && c.hash(events[k].payloadJSON) == c.hash(Listing(s.rows, run)[k].payloadJSON)
  {
    hide Listing;
    assert Listing(s.rows, run)[..|events|][k] == Listing(s.rows, run)[k];
  }

  lemma FollowHash(c: Crypto, s: System, events: seq<StoreEvent>, g: Signing, k: nat)
    requires FollowsRun(c, s, events, g) && k < g.pos
    ensures k < |Listing(s.rows, g.run)| && c.hash(events[k].payloadJSON) == c.hash(Listing(s.rows, g.run)[k].payloadJSON)
  {
    hide Listing;
    assert Listing(s.rows, g.run)[..g.pos][k] == Listing(s.rows, g.run)[k] && events[..g.pos][k] == events[k];
  }

  lemma SpliceIsNoPrefix(s: System, spliced: seq<StoreEvent>, run: string)
    requires ReadsAs(spliced, ["1", "2", "5"]) && TwoRuns(s, ["1", "2", "3"], ["4", "2", "5"])
    ensures !RunPrefix(TOY, s, spliced, run)
  {
    hide Listing, TOY, RunPrefix;
    ToyHash("5", "3");
    ToyHash("1", "4");
    if RunPrefix(TOY, s, spliced, run) {
      PrefixHash(TOY, s, spliced, run, 0);
      PrefixHash(TOY, s, spliced, run, 2);
    }
  }

  lemma SpliceFollowsNothing(s: System, spliced: seq<StoreEvent>, g: Signing)
    requires ReadsAs(spliced, ["1", "2", "5"]) && TwoRuns(s, ["1", "2", "3"], ["4", "2", "5"])
    ensures !FollowsRun(TOY, s, spliced, g)
  {
    hide Listing, TOY;
    ToyHash("5", "3");
    ToyHash("1", "4");
    if FollowsRun(TOY, s, spliced, g) {
      SigningOfTwo(s, ["1", "2", "3"], ["4", "2", "5"], g);
      FollowHash(TOY, s, spliced, g, 0);
    }
  }

  // ---------------------------------------------------------------- a repeated hash need not cross

  /** Two runs that begin with the same payload and then differ: hashes repeat, and yet no histories cross. */
  lemma SharedStartNeverCrosses() returns (c: Crypto, trace: seq<System>, steps: seq<Step>)
    ensures Ideal(c) && IsRun(c, trace, steps)
    ensures var s := trace[|trace| - 1]; !DistinctHashes(c, s.signed) && NoCrossing(c, s)
  {
    hide Listing, Inv, Reachable, TOY, IsRun, Ideal, Continues, StartsARun;
    c := TOY;
    ToyIdeal();
    ToyVerifies();
    var s := TwoRunsReachable(["1", "2"], ["1", "3"]);
    ReachableInv(c, s);
    assert Signs(s.signed[0], "a", 0, ["1", "2"][0]) && Signs(s.signed[2 + 0], "b", 0, ["1", "3"][0]);
    assert c.hash(s.signed[0].payload) == c.hash(s.signed[2].payload);
    forall g | g in s.signed && g.prev == GENESIS_HASH ensures StartsARun(c, s, g) { SharedStarts(s, g); }
    forall p, g | p in s.signed && g in s.signed && g.prev == c.hash(p.payload)
      ensures exists g2 :: Continues(c, s, p, g, g2)
    {
      SharedContinues(s, p, g);
    }
    trace, steps := WitnessOf(c, s);
  }

  /** What a signing of these two runs links behind. */
  lemma SharedPrev(s: System, g: Signing)
    requires Inv(TOY, s) && TwoRuns(s, ["1", "2"], ["1", "3"]) && g in s.signed
    ensures g.pos <= 1 && (g.run == "a" || g.run == "b") && |Listing(s.rows, g.run)| == 2
    ensures Listing(s.rows, g.run)[0].payloadJSON == "1"
    ensures g.prev == if g.pos == 0 then GENESIS_HASH else TOY.hash("1")
    ensures g.payload == if g.pos == 0 then "1" else if g.run == "a" then "2" else "3"
  {
    hide Listing, ChainOK, PcOK, UniqueIds, TOY, RowsSigned;
    SigningOfTwo(s, ["1", "2"], ["1", "3"], g);
    assert SigningOK(TOY, s, g);
    assert ReadsAs(Listing(s.rows, g.run), if g.run == "a" then ["1", "2"] else ["1", "3"]);
    assert Listing(s.rows, g.run)[0].payloadJSON == "1";
  }

  lemma SharedStarts(s: System, g: Signing)
    requires Inv(TOY, s) && TwoRuns(s, ["1", "2"], ["1", "3"]) && g in s.signed && g.prev == GENESIS_HASH
    ensures StartsARun(TOY, s, g)
  {
    hide Listing, Inv, TOY, TwoRuns;
    SharedPrev(s, g);
    ToyHash("1", "2");
    assert g.pos == 0;
  }

  lemma SharedContinues(s: System, p: Signing, g: Signing)
    requires Inv(TOY, s) && TwoRuns(s, ["1", "2"], ["1", "3"]) && p in s.signed && g in s.signed
    requires g.prev == TOY.hash(p.payload)
    ensures Continues(TOY, s, p, g, g)
  {
    hide Listing, Inv, TOY, TwoRuns, Continues;
    SharedPrev(s, p);
    SharedPrev(s, g);
    ToyHash("1", "2");
    ToyHash("1", "3");
    ToyHash("2", "1");
    ToyHash("3", "1");
    assert g.pos == 1 && p.pos == 0;
    ContinuesAtStart(TOY, s, p, g);
  }

  lemma ContinuesAtStart(c: Crypto, s: System, p: Signing, g: Signing)
    requires g in s.signed && g.pos == 1 && p.pos == 0 && Listing(s.rows, g.run) != []
    requires c.hash(Listing(s.rows, g.run)[0].payloadJSON) == c.hash(p.payload)
    ensures Continues(c, s, p, g, g)
  {
    hide Listing;
  }
}
