/** `Engine.Emit`: append a signed event to a run's chain. First the call on its own, then
    any number of calls over any number of runs interleaved step by step. */
module AuditEngine {
  import opened Text
  import opened AuditChain
  import opened AuditStore
  import opened AuditReplay
  import CanonicalJson
  import opened EventTypes

  function NewRow(c: Crypto, run: string, payload: string, prev: Digest, eventType: string, id: nat, ts: int): StoreEvent {
    var h := c.hash(payload);
    StoreEvent(id, Some(run), None, ts, eventType, ActorForEventType(eventType), payload,
               HexEncode(h), HexEncode(prev), HexEncode(c.sign(SigningInput(prev, h))), None, None)
  }

  /** What a call writes, column by column: the signature is over the 32 bytes of the hash it links to followed by the
      32 bytes of the payload's own. */
  ghost predicate RowOfCall(c: Crypto, row: StoreEvent, run: string, payload: string, prev: Digest, eventType: string,
                            id: nat, ts: int)
  {
    && row.id == id && row.runID == Some(run) && row.ts == ts && row.eventType == eventType && row.payloadJSON == payload
    && row.iterationID == None && row.otelTraceID == None && row.otelSpanID == None
    && HexDecode(row.prevHash) == Some(prev) && HexDecode(row.payloadHash) == Some(c.hash(payload))
    && HexDecode(row.signature) == Some(c.sign(prev + c.hash(payload)))
    && row.actor == ActorForEventType(eventType)
  }

  lemma NewRowColumns(c: Crypto, run: string, payload: string, prev: Digest, eventType: string, id: nat, ts: int)
    ensures RowOfCall(c, NewRow(c, run, payload, prev, eventType, id, ts), run, payload, prev, eventType, id, ts)
  {
    hide HexEncode, HexDecode, ActorForEventType, SigningInput;
    var h := c.hash(payload);
    var input := SigningInput(prev, h);
    assert input == input[..32] + input[32..] == prev + h;
    HexRoundTrip(prev);
    HexRoundTrip(h);
    HexRoundTrip(c.sign(input));
  }

  lemma NewRowIdentity(c: Crypto, run: string, payload: string, prev: Digest, eventType: string, id: nat, ts: int)
    ensures var row := NewRow(c, run, payload, prev, eventType, id, ts); row.runID == Some(run) && row.id == id
  {
  }

  /** The row `Emit` writes is a sound link after the hash it read. */
  lemma NewRowLinks(c: Crypto, run: string, payload: string, prev: Digest, eventType: string, id: nat, ts: int)
    requires c.SignaturesVerify()
    ensures var row := NewRow(c, run, payload, prev, eventType, id, ts);
            EventOK(c, prev, row) && OfRun(row, run) && row.payloadJSON == payload && row.id == id
  {
    hide HexEncode, HexDecode;
    var h := c.hash(payload);
    HexRoundTrip(prev);
    HexRoundTrip(h);
    HexRoundTrip(c.sign(SigningInput(prev, h)));
  }

  /** In an intact chain the hash `Emit` reads back is the hash the verifier will expect. */
  lemma PrevHashIsTip(c: Crypto, chain: seq<StoreEvent>)
    requires ChainOK(c, chain)
    ensures PrevHash(LastOf(chain)) == Some(Tip(c, chain))
  {
    if chain != [] {
      assert EventOK(c, Tip(c, chain[..|chain| - 1]), chain[|chain| - 1]);
    }
  }

  /** What a caller may assume of the id minted next for a run: it exceeds those already stored for it. */
  ghost predicate IdAfter(rows: seq<StoreEvent>, run: string, id: nat) {
    Listing(rows, run) == [] || Listing(rows, run)[|Listing(rows, run)| - 1].id < id
  }

  class Engine {
    const store: AuditTable
    const crypto: Crypto

    constructor (store: AuditTable, crypto: Crypto)
      ensures this.store == store && this.crypto == crypto
    {
      this.store := store;
      this.crypto := crypto;
    }

    /** One call, alone on its run as the per-run lock makes it. `id` and `ts` are the environment's,
        and either store access may fail. An intact chain stays intact; one that is not is appended to all
        the same, unless the hash to link to cannot even be read. */
    method Emit(run: string, eventType: string, payload: CanonicalJson.Argument, id: nat, ts: int,
                readFault: bool, insertFault: bool) returns (ok: bool)
      requires store.Valid()
      modifies store
      ensures store.Valid()
      ensures ok <==> (&& !readFault && PrevHash(LastOf(old(Listing(store.rows, run)))).Some?
                       && CanonicalJson.CanonicalText(payload).Some? && !insertFault && !HasId(old(store.rows), id))
      ensures !ok ==> store.rows == old(store.rows)
      ensures ok ==>
                var body := CanonicalJson.CanonicalText(payload).value;
                var prev := PrevHash(LastOf(old(Listing(store.rows, run)))).value;
                && store.rows == old(store.rows) + [NewRow(crypto, run, body, prev, eventType, id, ts)]
                && RowOfCall(crypto, store.rows[|old(store.rows)|], run, body, prev, eventType, id, ts)
      ensures old(IdAfter(store.rows, run, id)) ==>
                Listing(store.rows, run) == old(Listing(store.rows, run)) + store.rows[|old(store.rows)|..]
      ensures crypto.SignaturesVerify() && old(IdAfter(store.rows, run, id))
              && ChainOK(crypto, old(Listing(store.rows, run))) ==>
                ChainOK(crypto, Listing(store.rows, run))
      ensures forall r :: r != run ==> Listing(store.rows, r) == old(Listing(store.rows, r))
    {
      hide Listing, EventOK, ChainOK, NewRow, PrevHash, LastOf, CanonicalJson.CanonicalText, HasId;
      hide HexDecode, ActorForEventType;
      ghost var chain := Listing(store.rows, run);
      if readFault { NothingAdded(store.rows, chain); return false; }
      var last := store.GetLastAuditEvent(run);
      var prev := PrevHash(last);
      if prev.None? { NothingAdded(store.rows, chain); return false; }
      var body := CanonicalJson.CanonicalJSON(payload);
      if body.None? { NothingAdded(store.rows, chain); return false; }
      var row := NewRow(crypto, run, body.value, prev.value, eventType, id, ts);
      NewRowColumns(crypto, run, body.value, prev.value, eventType, id, ts);
      ok := store.InsertAuditEvent(row, insertFault);
      if ok {
        assert store.rows[|old(store.rows)|..] == [row];
        forall r | r != run || old(IdAfter(store.rows, run, id)) { ListingAppend(old(store.rows), row, r); }
        if crypto.SignaturesVerify() && old(IdAfter(store.rows, run, id)) && ChainOK(crypto, chain) {
          PrevHashIsTip(crypto, chain);
          NewRowLinks(crypto, run, body.value, prev.value, eventType, id, ts);
          ChainExtend(crypto, chain, row);
        }
      } else {
        NothingAdded(store.rows, chain);
      }
    }
  }

  lemma NothingAdded(rows: seq<StoreEvent>, chain: seq<StoreEvent>)
    ensures chain == chain + rows[|rows|..]
  {
  }

  // ---------------------------------------------------------------- interleaved calls

  /** `body` is None when the payload cannot be encoded. */
  datatype Call = Call(run: string, body: Option<string>)

  /** Where one goroutine is inside `Emit`. `base` is the run's listing at the moment it got the lock. */
  datatype Pc =
    | Idle
    | Waiting(call: Call)
    | Locked(call: Call, base: seq<StoreEvent>)
    | Linked(call: Call, base: seq<StoreEvent>, prev: Digest)
    | Ready(call: Call, base: seq<StoreEvent>, row: StoreEvent)
    | Leaving(call: Call, base: seq<StoreEvent>, inserted: Option<StoreEvent>)

  /** Every use of the private key: for which run and place in its chain, and what was linked.
      The signature exists even if the insert that follows fails. */
  datatype Signing = Signing(run: string, pos: nat, prev: Digest, payload: string)

  datatype System = System(pcs: map<nat, Pc>, locks: map<string, nat>, rows: seq<StoreEvent>, signed: seq<Signing>)

  const INIT: System := System(map[], map[], [], [])

  datatype Step =
    | Begin(t: nat, call: Call)
    | Acquire(t: nat)
    | ReadTip(t: nat, fault: bool)
    | SignRow(t: nat, eventType: string, id: nat, ts: int)
    | Insert(t: nat, fault: bool)
    | Unlock(t: nat)

  function PcOf(s: System, t: nat): Pc {
    if t in s.pcs then s.pcs[t] else Idle
  }

  ghost predicate Enabled(s: System, st: Step) {
    var pc := PcOf(s, st.t);
    match st
    case Begin(_, _) => pc.Idle?
    case Acquire(_) => pc.Waiting? && pc.call.run !in s.locks
    case ReadTip(_, _) => pc.Locked?
    case SignRow(_, _, id, _) => pc.Linked? && IdAfter(s.rows, pc.call.run, id)
    case Insert(_, _) => pc.Ready?
    case Unlock(_) => pc.Leaving?
  }

  function Move(s: System, t: nat, pc: Pc): System {
    s.(pcs := s.pcs[t := pc])
  }

  ghost function Apply(c: Crypto, s: System, st: Step): System
    requires Enabled(s, st)
  {
    var pc := PcOf(s, st.t);
    match st
    case Begin(t, call) => Move(s, t, Waiting(call))
    case Acquire(t) =>
      Move(s, t, Locked(pc.call, Listing(s.rows, pc.call.run))).(locks := s.locks[pc.call.run := t])
    case ReadTip(t, fault) =>
      var prev := PrevHash(LastOf(Listing(s.rows, pc.call.run)));
      if fault || prev.None? then Move(s, t, Leaving(pc.call, pc.base, None))
      else Move(s, t, Linked(pc.call, pc.base, prev.value))
    case SignRow(t, eventType, id, ts) =>
      if pc.call.body.None? then Move(s, t, Leaving(pc.call, pc.base, None))
      else
        var payload := pc.call.body.value;
        Move(s, t, Ready(pc.call, pc.base, NewRow(c, pc.call.run, payload, pc.prev, eventType, id, ts)))
          .(signed := s.signed + [Signing(pc.call.run, |pc.base|, pc.prev, payload)])
    case Insert(t, fault) =>
      if fault || HasId(s.rows, pc.row.id) then Move(s, t, Leaving(pc.call, pc.base, None))
      else Move(s, t, Leaving(pc.call, pc.base, Some(pc.row))).(rows := s.rows + [pc.row])
    case Unlock(t) => Move(s, t, Idle).(locks := s.locks - {pc.call.run})
  }

  ghost predicate Holding(pc: Pc) {
    pc.Locked? || pc.Linked? || pc.Ready? || pc.Leaving?
  }

  /** What is true of a goroutine inside the critical section. */
  ghost predicate PcOK(c: Crypto, s: System, t: nat) {
    var pc := PcOf(s, t);
    Holding(pc) ==>
      var run, now := pc.call.run, Listing(s.rows, pc.call.run);
      && run in s.locks && s.locks[run] == t
      && match pc
         case Locked(_, base) => now == base
         case Linked(_, base, prev) => now == base && prev == Tip(c, base)
         case Ready(call, base, row) =>
           && now == base && OfRun(row, run) && IdAfter(s.rows, run, row.id)
           && call.body == Some(row.payloadJSON) && EventOK(c, Tip(c, base), row)
           && Signing(run, |base|, Tip(c, base), row.payloadJSON) in s.signed
         case Leaving(call, base, None) => now == base
         case Leaving(call, base, Some(row)) => now == base + [row] && call.body == Some(row.payloadJSON)
         case _ => true
  }

  /** A signature was made for the place in its run's chain it records. */
  ghost predicate SigningOK(c: Crypto, s: System, g: Signing) {
    g.pos <= |Listing(s.rows, g.run)| && g.prev == Tip(c, Listing(s.rows, g.run)[..g.pos])
  }

  ghost predicate RowSigned(c: Crypto, signed: seq<Signing>, run: string, chain: seq<StoreEvent>, k: nat)
    requires k < |chain|
  {
    Signing(run, k, Tip(c, chain[..k]), chain[k].payloadJSON) in signed
  }

  /** Every stored row was signed, for the place it is at. */
  ghost predicate RowsSigned(c: Crypto, s: System, run: string) {
    forall k :: 0 <= k < |Listing(s.rows, run)| ==> RowSigned(c, s.signed, run, Listing(s.rows, run), k)
  }

  ghost predicate Inv(c: Crypto, s: System) {
    && UniqueIds(s.rows)
    && (forall t :: PcOK(c, s, t))
    && (forall run :: ChainOK(c, Listing(s.rows, run)))
    && (forall run :: RowsSigned(c, s, run))
    && (forall g :: g in s.signed ==> SigningOK(c, s, g))
  }

  lemma InitInv(c: Crypto)
    ensures Inv(c, INIT)
  {
  }

  /** The only step that changes a listing is a successful insert, and it changes its own run's:
      it adds the row this goroutine signed at the end. */
  lemma StepListing(c: Crypto, s: System, st: Step, run: string)
    requires Inv(c, s) && Enabled(s, st)
    ensures var pc := PcOf(s, st.t);
            Listing(Apply(c, s, st).rows, run) ==
            if st.Insert? && pc.call.run == run && !st.fault && !HasId(s.rows, pc.row.id)
            then Listing(s.rows, run) + [pc.row] else Listing(s.rows, run)
  {
    hide Listing, EventOK, ChainOK, NewRow, UniqueIds, HasId, PrevHash, LastOf, Tip;
    if st.Insert? {
      assert PcOK(c, s, st.t);
      RowFits(c, s, st.t, run);
    }
  }

  lemma RowFits(c: Crypto, s: System, t: nat, run: string)
    requires PcOK(c, s, t) && PcOf(s, t).Ready?
    ensures var pc := PcOf(s, t);
            Listing(s.rows + [pc.row], run) ==
            if pc.call.run == run then Listing(s.rows, run) + [pc.row] else Listing(s.rows, run)
  {
    hide Listing, EventOK, Tip;
    ListingAppend(s.rows, PcOf(s, t).row, run);
  }

  lemma StepPcOK(c: Crypto, s: System, st: Step, t: nat)
    requires c.SignaturesVerify() && Inv(c, s) && Enabled(s, st)
    ensures PcOK(c, Apply(c, s, st), t)
  {
    hide PcOK, Apply, Enabled;
    if t == st.t { StepOwnPc(c, s, st); } else { StepOtherPc(c, s, st, t); }
  }

  /** A goroutine in its critical section is not disturbed by the others. */
  lemma StepOtherPc(c: Crypto, s: System, st: Step, t: nat)
    requires Inv(c, s) && Enabled(s, st) && t != st.t
    ensures PcOK(c, Apply(c, s, st), t)
  {
    hide Listing, EventOK, ChainOK, NewRow, HasId, IdAfter, PrevHash, LastOf, Tip;
    assert PcOK(c, s, t) && PcOK(c, s, st.t);
    if Holding(PcOf(s, t)) {
      var run := PcOf(s, t).call.run;
      StepListing(c, s, st, run);
      if PcOf(s, t).Ready? { IdAfterKept(s.rows, Apply(c, s, st).rows, run, PcOf(s, t).row.id); }
    }
  }

  lemma IdAfterKept(rows: seq<StoreEvent>, rows': seq<StoreEvent>, run: string, id: nat)
    requires IdAfter(rows, run, id) && Listing(rows', run) == Listing(rows, run)
    ensures IdAfter(rows', run, id)
  {
  }

  lemma StepOwnPc(c: Crypto, s: System, st: Step)
    requires c.SignaturesVerify() && Inv(c, s) && Enabled(s, st)
    ensures PcOK(c, Apply(c, s, st), st.t)
  {
    hide Listing, EventOK, ChainOK, NewRow, HasId, PrevHash, LastOf, Tip;
    var pc := PcOf(s, st.t);
    assert PcOK(c, s, st.t);
    if Holding(pc) {
      StepListing(c, s, st, pc.call.run);
      PrevHashIsTip(c, Listing(s.rows, pc.call.run));
      if st.SignRow? && pc.call.body.Some? {
        NewRowLinks(c, pc.call.run, pc.call.body.value, pc.prev, st.eventType, st.id, st.ts);
      }
    }
  }

  lemma StepChains(c: Crypto, s: System, st: Step, run: string)
    requires Inv(c, s) && Enabled(s, st)
    ensures var s' := Apply(c, s, st);
            ChainOK(c, Listing(s'.rows, run)) && RowsSigned(c, s', run)
  {
    hide Listing, EventOK, ChainOK, NewRow;
    var s', pc, chain := Apply(c, s, st), PcOf(s, st.t), Listing(s.rows, run);
    assert PcOK(c, s, st.t) && ChainOK(c, chain) && RowsSigned(c, s, run);
    StepListing(c, s, st, run);
    var chain' := Listing(s'.rows, run);
    if chain' != chain {
      ChainExtend(c, chain, pc.row);
    }
    forall k | 0 <= k < |chain'|
      ensures RowSigned(c, s'.signed, run, chain', k)
    {
      if k < |chain| {
        assert RowSigned(c, s.signed, run, chain, k);
        assert chain'[..k] == chain[..k] && chain'[k] == chain[k];
      } else {
        assert chain'[..k] == chain;
      }
    }
  }

  lemma StepSigned(c: Crypto, s: System, st: Step, g: Signing)
    requires Inv(c, s) && Enabled(s, st)
    requires g in Apply(c, s, st).signed
    ensures SigningOK(c, Apply(c, s, st), g)
  {
    hide Listing, EventOK, ChainOK, NewRow;
    assert PcOK(c, s, st.t);
    StepListing(c, s, st, g.run);
    var chain, chain' := Listing(s.rows, g.run), Listing(Apply(c, s, st).rows, g.run);
    if g in s.signed {
      assert SigningOK(c, s, g);
      assert chain'[..g.pos] == chain[..g.pos];
    } else {
      assert chain[..|chain|] == chain;
    }
  }

  lemma StepInv(c: Crypto, s: System, st: Step)
    requires c.SignaturesVerify() && Inv(c, s) && Enabled(s, st)
    ensures Inv(c, Apply(c, s, st))
  {
    var s' := Apply(c, s, st);
    forall t ensures PcOK(c, s', t) { StepPcOK(c, s, st, t); }
    forall run ensures ChainOK(c, Listing(s'.rows, run)) { StepChains(c, s, st, run); }
    forall run ensures RowsSigned(c, s', run) { StepChains(c, s, st, run); }
    forall g | g in s'.signed ensures SigningOK(c, s', g) { StepSigned(c, s, st, g); }
  }

  /** `trace` is the sequence of states a system passes through when it takes `steps`. */
  ghost predicate IsRun(c: Crypto, trace: seq<System>, steps: seq<Step>) {
    && |trace| == |steps| + 1 && trace[0] == INIT
    && forall i :: 0 <= i < |steps| ==> Enabled(trace[i], steps[i]) && trace[i + 1] == Apply(c, trace[i], steps[i])
  }

  lemma {:induction false} RunInv(c: Crypto, trace: seq<System>, steps: seq<Step>, i: nat)
    requires c.SignaturesVerify() && IsRun(c, trace, steps) && i < |trace|
    ensures Inv(c, trace[i])
  {
    if i == 0 {
      InitInv(c);
    } else {
      RunInv(c, trace, steps, i - 1);
      StepInv(c, trace[i - 1], steps[i - 1]);
    }
  }

  /** Whatever the interleaving and whichever steps fail, `VerifyRun` accepts every run at every moment. */
  lemma EveryInterleavingVerifies(c: Crypto, trace: seq<System>, steps: seq<Step>, i: nat, run: string, res: VerifyResult)
    requires c.SignaturesVerify() && IsRun(c, trace, steps) && i < |trace|
    ensures IsVerdict(c, Listing(trace[i].rows, run), res) <==> res == Intact
  {
    RunInv(c, trace, steps, i);
    assert ChainOK(c, Listing(trace[i].rows, run));
    VerdictUnique(c, Listing(trace[i].rows, run), res, Intact);
  }

  /** Two goroutines are never both inside `Emit` for one run. */
  lemma MutualExclusion(c: Crypto, trace: seq<System>, steps: seq<Step>, i: nat, t: nat, u: nat)
    requires c.SignaturesVerify() && IsRun(c, trace, steps) && i < |trace|
    requires Holding(PcOf(trace[i], t)) && Holding(PcOf(trace[i], u))
    requires PcOf(trace[i], t).call.run == PcOf(trace[i], u).call.run
    ensures t == u
  {
    RunInv(c, trace, steps, i);
    assert PcOK(c, trace[i], t) && PcOK(c, trace[i], u);
  }

  /** From taking the lock to giving it up, a call adds its own row to its run's chain and nothing else happens to
      that chain; a call that fails leaves it as it was. */
  lemma CallIsAtomic(c: Crypto, trace: seq<System>, steps: seq<Step>, i: nat, j: nat, t: nat)
    requires c.SignaturesVerify() && IsRun(c, trace, steps) && i < j < |trace| && steps[i] == Acquire(t)
    requires forall k :: i < k <= j ==> Holding(PcOf(trace[k], t))
    ensures var run, pc := PcOf(trace[i], t).call.run, PcOf(trace[j], t);
            var before := Listing(trace[i].rows, run);
            && (pc.Leaving? ==>
                  Listing(trace[j].rows, run) == before + (if pc.inserted.Some? then [pc.inserted.value] else []))
            && (!pc.Leaving? ==> Listing(trace[j].rows, run) == before)
  {
    hide Listing, EventOK, ChainOK, Apply, Inv;
    BaseKept(c, trace, steps, i, j, t);
    RunInv(c, trace, steps, j);
    OwnView(c, trace[j], t);
  }

  lemma OwnView(c: Crypto, s: System, t: nat)
    requires Inv(c, s) && Holding(PcOf(s, t))
    ensures var pc := PcOf(s, t);
            Listing(s.rows, pc.call.run) == pc.base + (if pc.Leaving? && pc.inserted.Some? then [pc.inserted.value] else [])
  {
    hide Listing, EventOK, ChainOK;
    assert PcOK(c, s, t);
  }

  lemma {:induction false} BaseKept(c: Crypto, trace: seq<System>, steps: seq<Step>, i: nat, j: nat, t: nat)
    requires IsRun(c, trace, steps) && i < j < |trace| && steps[i] == Acquire(t)
    requires forall k :: i < k <= j ==> Holding(PcOf(trace[k], t))
    ensures var call := PcOf(trace[i], t).call;
            && Holding(PcOf(trace[j], t))
            && PcOf(trace[j], t).call == call && PcOf(trace[j], t).base == Listing(trace[i].rows, call.run)
  {
    hide Listing, NewRow, IdAfter, HasId;
    assert trace[j] == Apply(c, trace[j - 1], steps[j - 1]) && Enabled(trace[j - 1], steps[j - 1]);
    if j > i + 1 {
      BaseKept(c, trace, steps, i, j - 1, t);
    }
  }

  ghost predicate Reaches(c: Crypto, trace: seq<System>, steps: seq<Step>, s: System) {
    IsRun(c, trace, steps) && trace[|trace| - 1] == s
  }

  ghost predicate Reachable(c: Crypto, s: System) {
    exists trace, steps :: Reaches(c, trace, steps, s)
  }

  lemma InitReachable(c: Crypto)
    ensures Reachable(c, INIT)
  {
    assert Reaches(c, [INIT], [], INIT);
  }

  lemma StepReachable(c: Crypto, s: System, st: Step)
    requires Reachable(c, s) && Enabled(s, st)
    ensures Reachable(c, Apply(c, s, st))
  {
    hide Apply, Enabled;
    var trace, steps :| Reaches(c, trace, steps, s);
    var trace', steps' := trace + [Apply(c, s, st)], steps + [st];
    forall i | 0 <= i < |steps'|
      ensures Enabled(trace'[i], steps'[i]) && trace'[i + 1] == Apply(c, trace'[i], steps'[i])
    {
      if i < |steps| { assert trace'[i] == trace[i] && trace'[i + 1] == trace[i + 1]; }
    }
    assert Reaches(c, trace', steps', Apply(c, s, st));
  }

  lemma ReachableInv(c: Crypto, s: System)
    requires c.SignaturesVerify() && Reachable(c, s)
    ensures Inv(c, s)
  {
    var trace, steps :| Reaches(c, trace, steps, s);
    RunInv(c, trace, steps, |trace| - 1);
  }
}
