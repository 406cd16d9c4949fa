/** The per-run publish/subscribe bus. Subscribing, unsubscribing and taking a publisher's snapshot happen
    under the lock; the sends that follow a snapshot do not, and interleave with everything. */
module PubSub {
  import opened Text

  const SUB_BUFFER_SIZE: nat := 1000

  /** `pub` and `num` identify the Publish call the payload came from. */
  datatype Msg = Msg(pub: nat, num: nat, payload: string)

  /** One non-blocking send, and whether the buffer took the message. */
  datatype Try = Try(msg: Msg, accepted: bool)

  /** A subscriber's channel: its buffer, and the history needed to state what happened to every message. */
  datatype Chan = Chan(
    run: string,
    buf: seq<Msg>,
    closed: bool,
    closes: nat,            // how often close was called on it
    closedAt: nat,
    due: seq<Msg>,          // published with this channel in the snapshot, in snapshot order
    tries: seq<Try>,        // sends so far, in order
    received: seq<Msg>)

  /** A publisher: number of Publish calls begun, and the channels the current one still has to send to. */
  datatype Pub = Pub(count: nat, msg: Msg, todo: seq<nat>, at: nat)

  datatype Bus = Bus(subs: map<string, seq<nat>>, chans: seq<Chan>, pubs: map<nat, Pub>, now: nat, panicked: bool)

  const INIT: Bus := Bus(map[], [], map[], 0, false)

  datatype Step =
    | Subscribe(run: string)
    | Unsubscribe(id: nat)
    | Publish(p: nat, run: string, payload: string)
    | Send(p: nat)
    | Receive(id: nat)

  // ---------------------------------------------------------------- steps

  function Subs(subs: map<string, seq<nat>>, run: string): seq<nat> {
    if run in subs then subs[run] else []
  }

  function PubOf(b: Bus, p: nat): Pub {
    if p in b.pubs then b.pubs[p] else Pub(0, Msg(p, 0, ""), [], 0)
  }

  function Remove(ids: seq<nat>, id: nat): seq<nat> {
    if ids == [] then [] else if ids[0] == id then ids[1..] else [ids[0]] + Remove(ids[1..], id)
  }

  /** A run without subscribers has no entry. */
  function SetSubs(subs: map<string, seq<nat>>, run: string, ids: seq<nat>): map<string, seq<nat>> {
    if ids == [] then subs - {run} else subs[run := ids]
  }

  function NewChan(run: string): Chan {
    Chan(run, [], false, 0, 0, [], [], [])
  }

  function MarkDue(chans: seq<Chan>, ids: seq<nat>, msg: Msg): (marked: seq<Chan>)
    ensures |marked| == |chans|
  {
    seq(|chans|, i requires 0 <= i < |chans| => if i in ids then chans[i].(due := chans[i].due + [msg]) else chans[i])
  }

  /** The select statement of Publish: never blocks, drops when the buffer is full. */
  function TrySend(ch: Chan, msg: Msg): Chan {
    if |ch.buf| < SUB_BUFFER_SIZE then ch.(buf := ch.buf + [msg], tries := ch.tries + [Try(msg, true)])
    else ch.(tries := ch.tries + [Try(msg, false)])
  }

  /** After a panic the process is gone and nothing more happens. */
  predicate Enabled(b: Bus, st: Step) {
    !b.panicked &&
    match st
    case Subscribe(_) => true
    case Unsubscribe(id) => id < |b.chans|
    case Publish(p, _, _) => PubOf(b, p).todo == []
    case Send(p) => PubOf(b, p).todo != [] && PubOf(b, p).todo[0] < |b.chans|
    case Receive(id) => id < |b.chans| && b.chans[id].buf != []
  }

  function Apply(b: Bus, st: Step): Bus
    requires Enabled(b, st)
  {
    match st
    case Subscribe(run) =>
      var id := |b.chans|;
      b.(chans := b.chans + [NewChan(run)], subs := b.subs[run := Subs(b.subs, run) + [id]], now := b.now + 1)
    case Unsubscribe(id) =>
      var ch := b.chans[id];
      var ids := Subs(b.subs, ch.run);
      if id in ids then
        b.(subs := SetSubs(b.subs, ch.run, Remove(ids, id)),
           chans := b.chans[id := ch.(closed := true, closes := ch.closes + 1, closedAt := b.now + 1)],
           now := b.now + 1)
      else b.(subs := SetSubs(b.subs, ch.run, ids), now := b.now + 1)
    case Publish(p, run, payload) =>
      var pub := PubOf(b, p);
      var msg := Msg(p, pub.count, payload);
      b.(pubs := b.pubs[p := Pub(pub.count + 1, msg, Subs(b.subs, run), b.now + 1)],
         chans := MarkDue(b.chans, Subs(b.subs, run), msg),
         now := b.now + 1)
    case Send(p) =>
      var pub := PubOf(b, p);
      var id := pub.todo[0];
      if b.chans[id].closed then b.(panicked := true)
      else b.(pubs := b.pubs[p := pub.(todo := pub.todo[1..])],
              chans := b.chans[id := TrySend(b.chans[id], pub.msg)])
    case Receive(id) =>
      var ch := b.chans[id];
      b.(chans := b.chans[id := ch.(received := ch.received + [ch.buf[0]], buf := ch.buf[1..])])
  }

  // ---------------------------------------------------------------- what every state satisfies

  function Accepted(tries: seq<Try>): seq<Msg> {
    if tries == [] then []
    else Accepted(tries[..|tries| - 1]) + if tries[|tries| - 1].accepted then [tries[|tries| - 1].msg] else []
  }

  function Dropped(tries: seq<Try>): nat {
    if tries == [] then 0 else Dropped(tries[..|tries| - 1]) + if tries[|tries| - 1].accepted then 0 else 1
  }

  function Attempted(tries: seq<Try>): seq<Msg> {
    if tries == [] then [] else Attempted(tries[..|tries| - 1]) + [tries[|tries| - 1].msg]
  }

  /** The messages of one publisher. */
  function FromPub(msgs: seq<Msg>, p: nat): seq<Msg> {
    if msgs == [] then []
    else FromPub(msgs[..|msgs| - 1], p) + if msgs[|msgs| - 1].pub == p then [msgs[|msgs| - 1]] else []
  }

  /** Already published with channel `id` in the snapshot, not yet sent to it. */
  function Pending(b: Bus, p: nat, id: nat): seq<Msg> {
    if id in PubOf(b, p).todo then [PubOf(b, p).msg] else []
  }

  ghost predicate Registered(b: Bus, run: string) {
    run in b.subs ==>
      && b.subs[run] != [] && NoDuplicates(b.subs[run])
      && forall id :: id in b.subs[run] ==> id < |b.chans| && b.chans[id].run == run && !b.chans[id].closed
  }

  ghost predicate ChanOK(b: Bus, id: nat)
    requires id < |b.chans|
  {
    var ch := b.chans[id];
    && (!ch.closed ==> id in Subs(b.subs, ch.run))
    && ch.closes == (if ch.closed then 1 else 0)
    && |ch.buf| <= SUB_BUFFER_SIZE
    && Accepted(ch.tries) == ch.received + ch.buf
  }

  ghost predicate PubOK(b: Bus, p: nat) {
    var pub := PubOf(b, p);
    && NoDuplicates(pub.todo) && pub.msg.pub == p
    && (pub.todo != [] ==> pub.msg.num < pub.count)
    && pub.at <= b.now
    && forall id :: id in pub.todo ==> id < |b.chans| && (b.chans[id].closed ==> pub.at < b.chans[id].closedAt)
  }

  ghost predicate Numbered(msgs: seq<Msg>, below: nat) {
    && (forall i :: 0 <= i < |msgs| ==> msgs[i].num < below)
    && forall i, j :: 0 <= i < j < |msgs| ==> msgs[i].num < msgs[j].num
  }

  /** Publisher p and channel id: sends made and the one still pending are exactly the messages due, in order. */
  ghost predicate FlowOK(b: Bus, p: nat, id: nat)
    requires id < |b.chans|
  {
    && FromPub(Attempted(b.chans[id].tries), p) + Pending(b, p, id) == FromPub(b.chans[id].due, p)
    && Numbered(FromPub(b.chans[id].due, p), PubOf(b, p).count)
  }

  ghost predicate Inv(b: Bus) {
    && (forall run :: Registered(b, run))
    && (forall id :: 0 <= id < |b.chans| ==> ChanOK(b, id))
    && (forall p :: PubOK(b, p))
    && forall p: nat, id :: 0 <= id < |b.chans| ==> FlowOK(b, p, id)
  }

  // ---------------------------------------------------------------- lists

  lemma {:induction false} RemoveKeeps(ids: seq<nat>, id: nat)
    requires NoDuplicates(ids)
    ensures NoDuplicates(Remove(ids, id))
    ensures forall x :: x in Remove(ids, id) <==> x in ids && x != id
  {
    if ids != [] {
      assert ids == [ids[0]] + ids[1..];
      RemoveKeeps(ids[1..], id);
      forall i | 0 <= i < |Remove(ids[1..], id)| ensures Remove(ids[1..], id)[i] != ids[0] {
        assert Remove(ids[1..], id)[i] in ids[1..];
      }
    }
  }

  /** Unsubscribing leaves the other subscribers in their order. */
  lemma {:induction false} RemoveIsSplice(ids: seq<nat>, i: nat)
    requires i < |ids| && NoDuplicates(ids)
    ensures Remove(ids, ids[i]) == ids[..i] + ids[i + 1..]
  {
    if i > 0 {
      assert ids[0] != ids[i];
      assert NoDuplicates(ids[1..]) && ids[1..][i - 1] == ids[i];
      RemoveIsSplice(ids[1..], i - 1);
      assert ids[..i] + ids[i + 1..] == [ids[0]] + (ids[1..][..i - 1] + ids[1..][i..]);
    }
  }

  lemma Appended(tries: seq<Try>, t: Try)
    ensures Accepted(tries + [t]) == Accepted(tries) + if t.accepted then [t.msg] else []
    ensures Dropped(tries + [t]) == Dropped(tries) + if t.accepted then 0 else 1
    ensures Attempted(tries + [t]) == Attempted(tries) + [t.msg]
  {
    assert (tries + [t])[..|tries|] == tries;
  }

  lemma FromPubAppend(msgs: seq<Msg>, m: Msg, p: nat)
    ensures FromPub(msgs + [m], p) == FromPub(msgs, p) + if m.pub == p then [m] else []
  {
    assert (msgs + [m])[..|msgs|] == msgs;
  }

  // ---------------------------------------------------------------- the invariant is kept

  lemma KeepsRegistered(b: Bus, st: Step, run: string)
    requires Inv(b) && Enabled(b, st)
    ensures Registered(Apply(b, st), run)
  {
    hide FlowOK, PubOK, FromPub, Accepted;
    assert Registered(b, run);
    match st {
      case Subscribe(r) =>
        var ids := Subs(b.subs, run);
        forall i | 0 <= i < |ids| ensures ids[i] != |b.chans| { assert ids[i] in ids; }
      case Unsubscribe(id) =>
        assert Registered(b, b.chans[id].run) && ChanOK(b, id);
        RemoveKeeps(Subs(b.subs, b.chans[id].run), id);
      case Publish(_, _, _) =>
      case Send(_) =>
      case Receive(_) =>
    }
  }

  lemma SendKeepsHistory(ch: Chan, msg: Msg)
    requires |ch.buf| <= SUB_BUFFER_SIZE && Accepted(ch.tries) == ch.received + ch.buf
    ensures var ch' := TrySend(ch, msg);
            && |ch'.buf| <= SUB_BUFFER_SIZE && Accepted(ch'.tries) == ch'.received + ch'.buf
            && ch'.run == ch.run && ch'.closed == ch.closed && ch'.closes == ch.closes
  {
    hide Accepted;
    Appended(ch.tries, Try(msg, |ch.buf| < SUB_BUFFER_SIZE));
  }

  lemma KeepsChan(b: Bus, st: Step, id: nat)
    requires Inv(b) && Enabled(b, st) && id < |Apply(b, st).chans|
    ensures ChanOK(Apply(b, st), id)
  {
    hide FlowOK, PubOK, FromPub, Accepted, Registered, TrySend;
    if id < |b.chans| { assert ChanOK(b, id); }
    match st {
      case Subscribe(run) =>
        NothingAccepted();
      case Unsubscribe(x) =>
        UnsubscribeKeepsChan(b, x, id);
      case Publish(_, _, _) =>
      case Send(p) =>
        SendKeepsHistory(b.chans[id], PubOf(b, p).msg);
      case Receive(_) =>
    }
  }

  lemma UnsubscribeKeepsChan(b: Bus, x: nat, id: nat)
    requires Inv(b) && Enabled(b, Unsubscribe(x)) && id < |b.chans|
    ensures ChanOK(Apply(b, Unsubscribe(x)), id)
  {
    hide FlowOK, PubOK, FromPub, Accepted;
    assert ChanOK(b, id) && ChanOK(b, x);
    assert Registered(b, b.chans[x].run);
    if x in Subs(b.subs, b.chans[x].run) {
      RemoveKeeps(Subs(b.subs, b.chans[x].run), x);
    }
  }

  lemma NothingAccepted()
    ensures Accepted([]) == []
  {
  }

  lemma KeepsPub(b: Bus, st: Step, p: nat)
    requires Inv(b) && Enabled(b, st)
    ensures PubOK(Apply(b, st), p)
  {
    hide FlowOK, FromPub, Accepted, TrySend;
    assert PubOK(b, p);
    match st {
      case Subscribe(_) =>
      case Unsubscribe(x) =>
        assert ChanOK(b, x) && Registered(b, b.chans[x].run);
      case Publish(q, run, _) =>
        assert Registered(b, run);
      case Send(q) =>
        SendKeepsPub(b, q, p);
      case Receive(_) =>
    }
  }

  lemma SendKeepsPub(b: Bus, q: nat, p: nat)
    requires PubOK(b, q) && PubOK(b, p) && Enabled(b, Send(q))
    ensures PubOK(Apply(b, Send(q)), p)
  {
    var b', todo, todo' := Apply(b, Send(q)), PubOf(b, p).todo, PubOf(Apply(b, Send(q)), p).todo;
    assert todo' == todo || todo' == todo[1..];
    forall id | id in todo'
      ensures id < |b'.chans| && (b'.chans[id].closed ==> PubOf(b', p).at < b'.chans[id].closedAt)
    {
      assert id in todo;
      assert b'.chans[id].closed == b.chans[id].closed && b'.chans[id].closedAt == b.chans[id].closedAt;
    }
  }

  lemma NewNumber(msgs: seq<Msg>, m: Msg)
    requires Numbered(msgs, m.num)
    ensures Numbered(msgs + [m], m.num + 1)
  {
  }

  lemma KeepsFlow(b: Bus, st: Step, p: nat, id: nat)
    requires Inv(b) && Enabled(b, st) && id < |Apply(b, st).chans|
    ensures FlowOK(Apply(b, st), p, id)
  {
    hide FromPub, Accepted, ChanOK, Registered, Numbered;
    assert PubOK(b, p);
    if id < |b.chans| { assert FlowOK(b, p, id); }
    match st {
      case Subscribe(_) =>
        if id == |b.chans| { NothingFlowed(p, PubOf(b, p).count); }
      case Unsubscribe(_) =>
      case Publish(q, run, payload) =>
        PublishFlow(b, q, run, payload, p, id);
      case Send(q) =>
        SendFlow(b, q, p, id);
      case Receive(_) =>
    }
  }

  lemma PublishEffect(b: Bus, q: nat, run: string, payload: string, p: nat, id: nat)
    requires Enabled(b, Publish(q, run, payload)) && id < |b.chans|
    ensures var b', msg := Apply(b, Publish(q, run, payload)), Msg(q, PubOf(b, q).count, payload);
            var marked := id in Subs(b.subs, run);
            && |b'.chans| == |b.chans|
            && b'.chans[id] == (if marked then b.chans[id].(due := b.chans[id].due + [msg]) else b.chans[id])
            && PubOf(b', p).count == PubOf(b, p).count + (if p == q then 1 else 0)
            && (p == q ==> Pending(b, p, id) == [] && Pending(b', p, id) == if marked then [msg] else [])
            && (p != q ==> Pending(b', p, id) == Pending(b, p, id))
  {
  }

  lemma PublishFlow(b: Bus, q: nat, run: string, payload: string, p: nat, id: nat)
    requires Inv(b) && Enabled(b, Publish(q, run, payload)) && id < |b.chans|
    requires id < |Apply(b, Publish(q, run, payload)).chans|
    ensures FlowOK(Apply(b, Publish(q, run, payload)), p, id)
  {
    hide FromPub, Accepted, ChanOK, Registered, Numbered, Attempted, PubOK, Apply, PubOf, Pending, Enabled;
    assert FlowOK(b, p, id);
    PublishEffect(b, q, run, payload, p, id);
    var msg, due := Msg(q, PubOf(b, q).count, payload), b.chans[id].due;
    FromPubAppend(due, msg, p);
    if q == p {
      NewNumber(FromPub(due, p), msg);
      NumberedLater(FromPub(due, p), PubOf(b, p).count);
    }
  }

  lemma NumberedLater(msgs: seq<Msg>, below: nat)
    requires Numbered(msgs, below)
    ensures Numbered(msgs, below + 1)
  {
  }

  lemma NothingFlowed(p: nat, count: nat)
    ensures Attempted([]) == [] && FromPub([], p) == [] && Numbered([], count)
  {
  }

  /** A send takes the first channel off the publisher's list, and that channel is not on it twice. */
  lemma SendEffect(b: Bus, q: nat, p: nat, id: nat)
    requires PubOK(b, q) && Enabled(b, Send(q)) && id < |b.chans|
    ensures var b', pub := Apply(b, Send(q)), PubOf(b, q);
            var sent := !b'.panicked && id == pub.todo[0];
            && |b'.chans| == |b.chans|
            && b'.chans[id] == (if sent then TrySend(b.chans[id], pub.msg) else b.chans[id])
            && PubOf(b', p).count == PubOf(b, p).count
            && Pending(b', p, id) == (if p == q && sent then [] else Pending(b, p, id))
            && (sent ==> Pending(b, q, id) == [pub.msg] && pub.msg.pub == q)
  {
    hide TrySend;
    var todo := PubOf(b, q).todo;
    assert todo == [todo[0]] + todo[1..];
    assert todo[0] in todo;
  }

  lemma SendFlow(b: Bus, q: nat, p: nat, id: nat)
    requires Inv(b) && Enabled(b, Send(q)) && id < |b.chans| && id < |Apply(b, Send(q)).chans|
    ensures FlowOK(Apply(b, Send(q)), p, id)
  {
    hide FromPub, Accepted, ChanOK, Registered, Numbered, Pending, Attempted, PubOK, Apply, PubOf, Enabled;
    assert PubOK(b, q) && FlowOK(b, p, id);
    SendEffect(b, q, p, id);
    var pub, ch := PubOf(b, q), b.chans[id];
    Appended(ch.tries, Try(pub.msg, |ch.buf| < SUB_BUFFER_SIZE));
    FromPubAppend(Attempted(ch.tries), pub.msg, p);
  }

  lemma StepInv(b: Bus, st: Step)
    requires Inv(b) && Enabled(b, st)
    ensures Inv(Apply(b, st))
  {
    hide Registered, ChanOK, PubOK, FlowOK, Apply;
    var b' := Apply(b, st);
    forall run ensures Registered(b', run) { KeepsRegistered(b, st, run); }
    forall id | 0 <= id < |b'.chans| ensures ChanOK(b', id) { KeepsChan(b, st, id); }
    forall p ensures PubOK(b', p) { KeepsPub(b, st, p); }
    forall p: nat, id | 0 <= id < |b'.chans| ensures FlowOK(b', p, id) { KeepsFlow(b, st, p, id); }
  }

  ghost predicate IsRun(trace: seq<Bus>, steps: seq<Step>) {
    && |trace| == |steps| + 1 && trace[0] == INIT
    && forall i :: 0 <= i < |steps| ==> Enabled(trace[i], steps[i]) && trace[i + 1] == Apply(trace[i], steps[i])
  }

  lemma {:induction false} RunInv(trace: seq<Bus>, steps: seq<Step>, i: nat)
    requires IsRun(trace, steps) && i < |trace|
    ensures Inv(trace[i])
  {
    if i > 0 {
      RunInv(trace, steps, i - 1);
      StepInv(trace[i - 1], steps[i - 1]);
    }
  }

  // ---------------------------------------------------------------- what a subscriber gets

  /** `sub` is `all` with some elements left out. */
  ghost predicate Subsequence<T>(sub: seq<T>, all: seq<T>)
    decreases |all|
  {
    if all == [] then sub == []
    else Subsequence(sub, all[..|all| - 1])
         || (sub != [] && sub[|sub| - 1] == all[|all| - 1] && Subsequence(sub[..|sub| - 1], all[..|all| - 1]))
  }

  lemma {:induction false} TriesAddUp(tries: seq<Try>)
    ensures |Attempted(tries)| == |tries| == |Accepted(tries)| + Dropped(tries)
    ensures Subsequence(Accepted(tries), Attempted(tries))
    ensures Dropped(tries) == 0 ==> Accepted(tries) == Attempted(tries)
  {
    if tries != [] {
      TriesAddUp(tries[..|tries| - 1]);
      var a := Attempted(tries);
      assert a[..|a| - 1] == Attempted(tries[..|tries| - 1]);
      if tries[|tries| - 1].accepted {
        var s := Accepted(tries);
        assert s[..|s| - 1] == Accepted(tries[..|tries| - 1]);
      } else {
        assert Accepted(tries) == Accepted(tries[..|tries| - 1]);
      }
    }
  }

  lemma {:induction false} SubsequenceFromPub(sub: seq<Msg>, all: seq<Msg>, p: nat)
    requires Subsequence(sub, all)
    ensures Subsequence(FromPub(sub, p), FromPub(all, p))
    decreases |all|
  {
    if all != [] {
      var front, last := all[..|all| - 1], all[|all| - 1];
      var fp := FromPub(all, p);
      assert last.pub == p ==> fp[..|fp| - 1] == FromPub(front, p);
      assert last.pub != p ==> fp == FromPub(front, p);
      if Subsequence(sub, front) {
        SubsequenceFromPub(sub, front, p);
      } else {
        SubsequenceFromPub(sub[..|sub| - 1], front, p);
        var sp := FromPub(sub, p);
        assert last.pub == p ==> sp[..|sp| - 1] == FromPub(sub[..|sub| - 1], p);
        assert last.pub != p ==> sp == FromPub(sub[..|sub| - 1], p);
      }
    }
  }

  /** At every moment of every run, for every subscriber: every send is received, buffered or dropped, exactly one
      of the three; the buffer is within its capacity; and what got through is, publisher by publisher, a
      subsequence of what that publisher published to it, in publish order. */
  lemma DeliveryLaw(trace: seq<Bus>, steps: seq<Step>, i: nat, id: nat, p: nat)
    requires IsRun(trace, steps) && i < |trace| && id < |trace[i].chans|
    ensures var ch := trace[i].chans[id];
            && |ch.tries| == |ch.received| + |ch.buf| + Dropped(ch.tries)
            && |ch.buf| <= 1000
            && Subsequence(ch.received + ch.buf, Attempted(ch.tries))
            && Subsequence(FromPub(ch.received + ch.buf, p), FromPub(Attempted(ch.tries), p))
            && FromPub(Attempted(ch.tries), p) <= FromPub(ch.due, p)
            && Numbered(FromPub(ch.due, p), PubOf(trace[i], p).count)
  {
    hide Accepted, Attempted, FromPub, Dropped, Numbered, Registered, PubOK;
    RunInv(trace, steps, i);
    var ch := trace[i].chans[id];
    assert ChanOK(trace[i], id) && FlowOK(trace[i], p, id);
    TriesAddUp(ch.tries);
    SubsequenceFromPub(ch.received + ch.buf, Attempted(ch.tries), p);
  }

  /** With nothing dropped and publisher p between calls, the subscriber has or will read all of p's messages
      since it subscribed, in order. */
  lemma NothingLostUnlessDropped(trace: seq<Bus>, steps: seq<Step>, i: nat, id: nat, p: nat)
    requires IsRun(trace, steps) && i < |trace| && id < |trace[i].chans|
    requires Dropped(trace[i].chans[id].tries) == 0 && PubOf(trace[i], p).todo == []
    ensures FromPub(trace[i].chans[id].received + trace[i].chans[id].buf, p) == FromPub(trace[i].chans[id].due, p)
  {
    hide Accepted, Attempted, FromPub, Dropped, Numbered, Registered, PubOK;
    RunInv(trace, steps, i);
    assert ChanOK(trace[i], id) && FlowOK(trace[i], p, id);
    TriesAddUp(trace[i].chans[id].tries);
  }

  /** A message is dropped only by a send that finds the buffer full. */
  lemma DropOnlyWhenFull(b: Bus, st: Step, id: nat)
    requires Enabled(b, st) && id < |b.chans|
    requires Dropped(Apply(b, st).chans[id].tries) != Dropped(b.chans[id].tries)
    ensures st.Send? && PubOf(b, st.p).todo[0] == id && |b.chans[id].buf| >= 1000
    ensures Apply(b, st).chans[id].buf == b.chans[id].buf
  {
    hide Dropped;
    if st.Send? {
      Appended(b.chans[id].tries, Try(PubOf(b, st.p).msg, true));
    }
  }

  /** A publish is due at exactly the channels registered for its run when the snapshot is taken. */
  lemma DueAtSubscribers(b: Bus, p: nat, run: string, payload: string, id: nat)
    requires Inv(b) && Enabled(b, Publish(p, run, payload)) && id < |b.chans|
    ensures var due, due' := b.chans[id].due, Apply(b, Publish(p, run, payload)).chans[id].due;
            due' == if b.chans[id].run == run && !b.chans[id].closed
                    then due + [Msg(p, PubOf(b, p).count, payload)] else due
  {
    assert ChanOK(b, id) && Registered(b, run);
  }

  // ---------------------------------------------------------------- registration

  /** At every moment: the channels registered for a run are distinct, open and of that run; no run is left with
      an empty list; and no channel has been closed twice, however often its unsubscribe was called. */
  lemma RegistrationLaw(trace: seq<Bus>, steps: seq<Step>, i: nat, run: string, id: nat)
    requires IsRun(trace, steps) && i < |trace|
    ensures Registered(trace[i], run)
    ensures id < |trace[i].chans| ==>
              && trace[i].chans[id].closes <= 1
              && (trace[i].chans[id].closed <==> id !in Subs(trace[i].subs, trace[i].chans[id].run))
  {
    RunInv(trace, steps, i);
    assert Registered(trace[i], run);
    if id < |trace[i].chans| {
      assert ChanOK(trace[i], id) && Registered(trace[i], trace[i].chans[id].run);
    }
  }

  /** Unsubscribing takes out that channel only and keeps the others in order; a second call changes neither
      the lists nor the channels. */
  lemma UnsubscribeLaw(b: Bus, id: nat, run: string)
    requires Inv(b) && Enabled(b, Unsubscribe(id))
    ensures var b', earlier := Apply(b, Unsubscribe(id)), Subs(b.subs, run);
            && (!b.chans[id].closed && run == b.chans[id].run ==>
                  exists k :: 0 <= k < |earlier| && earlier[k] == id && Subs(b'.subs, run) == earlier[..k] + earlier[k + 1..])
            && (b.chans[id].closed || run != b.chans[id].run ==> Subs(b'.subs, run) == earlier)
            && (b.chans[id].closed ==> b'.chans == b.chans)
            && b'.chans[id].closed
  {
    assert ChanOK(b, id) && Registered(b, b.chans[id].run);
    var ids := Subs(b.subs, b.chans[id].run);
    if id in ids {
      var k :| 0 <= k < |ids| && ids[k] == id;
      RemoveIsSplice(ids, k);
    }
  }

  // ---------------------------------------------------------------- sending on a closed channel

  /** A panic is a send, by some publisher p, to a channel that was unsubscribed while it was on p's list: the close
      came after p's snapshot and before the send. */
  lemma PanicNeedsLateClose(trace: seq<Bus>, steps: seq<Step>, i: nat) returns (k: nat)
    requires IsRun(trace, steps) && i < |steps| && trace[i + 1].panicked
    ensures steps[i].Send? && k < i && steps[k].Unsubscribe?
    ensures var p, id := steps[i].p, steps[k].id;
            && PubOf(trace[i], p).todo != [] && PubOf(trace[i], p).todo[0] == id
            && ClosesListed(trace[k], id, p)
            && id < |trace[i].chans| && PubOf(trace[i], p).at < trace[i].chans[id].closedAt
  {
    hide ClosesListed;
    RunInv(trace, steps, i);
    var p := steps[i].p;
    var id := PubOf(trace[i], p).todo[0];
    assert PubOK(trace[i], p) && id in PubOf(trace[i], p).todo;
    k := StaleHasCause(trace, steps, i, p, id);
  }

  /** Channel id is open and on p's list. */
  ghost predicate ClosesListed(b: Bus, id: nat, p: nat) {
    id < |b.chans| && !b.chans[id].closed && id in PubOf(b, p).todo
  }

  lemma {:induction false} StaleHasCause(trace: seq<Bus>, steps: seq<Step>, i: nat, p: nat, id: nat) returns (k: nat)
    requires IsRun(trace, steps) && i < |trace|
    requires id in PubOf(trace[i], p).todo && id < |trace[i].chans| && trace[i].chans[id].closed
    ensures k < i && steps[k] == Unsubscribe(id) && ClosesListed(trace[k], id, p)
  {
    hide Inv, Apply, Enabled;
    assert i > 0;
    RunInv(trace, steps, i - 1);
    assert Enabled(trace[i - 1], steps[i - 1]) && trace[i] == Apply(trace[i - 1], steps[i - 1]);
    StaleBefore(trace[i - 1], steps[i - 1], p, id);
    if trace[i - 1].chans[id].closed {
      k := StaleHasCause(trace, steps, i - 1, p, id);
    } else {
      k := i - 1;
    }
  }

  lemma StaleBefore(b: Bus, st: Step, p: nat, id: nat)
    requires Inv(b) && Enabled(b, st)
    requires id in PubOf(Apply(b, st), p).todo && id < |Apply(b, st).chans| && Apply(b, st).chans[id].closed
    ensures id in PubOf(b, p).todo && id < |b.chans| && (!b.chans[id].closed ==> st == Unsubscribe(id))
  {
    hide FlowOK, FromPub, Accepted, ChanOK, PubOK, TrySend, Remove, SetSubs;
    if st.Publish? { assert Registered(b, st.run); }
    if st.Send? { SendKeepsClosed(b.chans[PubOf(b, st.p).todo[0]], PubOf(b, st.p).msg); }
  }

  lemma SendKeepsClosed(ch: Chan, msg: Msg)
    ensures TrySend(ch, msg).closed == ch.closed
  {
  }

  /** It can happen: subscribe, publish, unsubscribe between the snapshot and the send. */
  lemma PanicReachable() returns (trace: seq<Bus>, steps: seq<Step>)
    ensures IsRun(trace, steps) && |steps| == 4 && trace[4].panicked
  {
    hide Apply, Enabled, INIT;
    steps := [Subscribe("run"), Publish(0, "run", ""), Unsubscribe(0), Send(0)];
    OneSubscriber("run");
    var s1 := Apply(INIT, steps[0]);
    OneSnapshot(s1, "run");
    var s2 := Apply(s1, steps[1]);
    ClosedBehindSnapshot(s2, "run");
    var s3 := Apply(s2, steps[2]);
    SendToClosed(s3);
    trace := [INIT, s1, s2, s3, Apply(s3, steps[3])];
  }

  /** One open channel, registered for the run. */
  ghost predicate Alone(b: Bus, run: string) {
    && !b.panicked && |b.chans| == 1 && b.chans[0].run == run && Subs(b.subs, run) == [0]
  }

  lemma OneSubscriber(run: string)
    ensures Enabled(INIT, Subscribe(run)) && Alone(Apply(INIT, Subscribe(run)), run)
    ensures PubOf(Apply(INIT, Subscribe(run)), 0).todo == []
  {
  }

  lemma OneSnapshot(b: Bus, run: string)
    requires Alone(b, run) && PubOf(b, 0).todo == []
    ensures Enabled(b, Publish(0, run, "")) && Alone(Apply(b, Publish(0, run, "")), run)
    ensures PubOf(Apply(b, Publish(0, run, "")), 0).todo == [0]
  {
  }

  lemma ClosedBehindSnapshot(b: Bus, run: string)
    requires Alone(b, run) && PubOf(b, 0).todo == [0]
    ensures Enabled(b, Unsubscribe(0))
    ensures var b' := Apply(b, Unsubscribe(0));
            !b'.panicked && |b'.chans| == 1 && b'.chans[0].closed && PubOf(b', 0).todo == [0]
  {
    hide SetSubs, Remove;
  }

  lemma SendToClosed(b: Bus)
    requires !b.panicked && |b.chans| == 1 && b.chans[0].closed && PubOf(b, 0).todo == [0]
    ensures Enabled(b, Send(0)) && Apply(b, Send(0)).panicked
  {
  }

  /** No publisher still has to send to a closed channel. */
  ghost predicate NoneStale(b: Bus) {
    forall p: nat, id :: id in PubOf(b, p).todo && id < |b.chans| ==> !b.chans[id].closed
  }

  /** A step closes no channel that a publisher still has on its list. */
  ghost predicate Quiet(b: Bus, st: Step) {
    st.Unsubscribe? ==> forall p :: st.id !in PubOf(b, p).todo
  }

  /** A run is free of panics, and of channels that could still cause one, exactly as long as every unsubscribe
      waits until no publisher has the channel on its list. */
  lemma {:induction false} QuietRunsNeverPanic(trace: seq<Bus>, steps: seq<Step>, i: nat)
    requires IsRun(trace, steps) && i < |trace|
    ensures !trace[i].panicked && NoneStale(trace[i]) <==> forall k :: 0 <= k < i ==> Quiet(trace[k], steps[k])
  {
    hide NoneStale, Quiet, Inv;
    if i == 0 {
      NothingStaleAtFirst();
    } else {
      var b, st := trace[i - 1], steps[i - 1];
      QuietRunsNeverPanic(trace, steps, i - 1);
      RunInv(trace, steps, i - 1);
      if !NoneStale(b) {
        StaleStays(b, st);
      } else if Quiet(b, st) {
        QuietStep(b, st);
      } else {
        HastyStep(b, st);
      }
    }
  }

  lemma NothingStaleAtFirst()
    ensures !INIT.panicked && NoneStale(INIT)
  {
  }

  /** A closed channel on a publisher's list stays there until the send that panics. */
  lemma StaleStays(b: Bus, st: Step)
    requires Inv(b) && Enabled(b, st) && !NoneStale(b)
    ensures Apply(b, st).panicked || !NoneStale(Apply(b, st))
  {
    hide FlowOK, FromPub, Accepted, Registered, PubOK, ChanOK, TrySend, Remove, SetSubs;
    var b' := Apply(b, st);
    var p: nat, id :| id in PubOf(b, p).todo && id < |b.chans| && b.chans[id].closed;
    if st.Send? && st.p == p {
      var todo := PubOf(b, p).todo;
      assert todo == [todo[0]] + todo[1..];
    }
    if !b'.panicked {
      StillClosed(b, st, id);
      assert id in PubOf(b', p).todo;
    }
  }

  lemma StillClosed(b: Bus, st: Step, id: nat)
    requires Enabled(b, st) && id < |b.chans| && b.chans[id].closed
    ensures id < |Apply(b, st).chans| && Apply(b, st).chans[id].closed
  {
    hide Remove, SetSubs;
  }

  /** Closing a channel that a publisher has on its list makes it stale. */
  lemma HastyStep(b: Bus, st: Step)
    requires Inv(b) && Enabled(b, st) && !Quiet(b, st)
    ensures !NoneStale(Apply(b, st))
  {
    hide FlowOK, FromPub, Accepted, Registered, PubOK, Remove, SetSubs;
    var p :| st.id in PubOf(b, p).todo;
    assert ChanOK(b, st.id);
    var b' := Apply(b, st);
    assert b'.chans[st.id].closed && st.id in PubOf(b', p).todo;
  }

  lemma QuietStep(b: Bus, st: Step)
    requires Inv(b) && Enabled(b, st) && Quiet(b, st) && NoneStale(b)
    ensures !Apply(b, st).panicked && NoneStale(Apply(b, st))
  {
    hide FlowOK, FromPub, Accepted;
    if st.Publish? { assert Registered(b, st.run) && PubOK(b, st.p); }
    forall p: nat, id | id in PubOf(Apply(b, st), p).todo && id < |Apply(b, st).chans|
      ensures !Apply(b, st).chans[id].closed
    {
      assert PubOK(b, p);
    }
  }

  // ---------------------------------------------------------------- the bus as an object

  /** The sends left of publisher p's current call, with nothing in between. */
  function SendAll(b: Bus, p: nat): Bus
    decreases !b.panicked, |PubOf(b, p).todo|
  {
    if Enabled(b, Send(p)) then SendAll(Apply(b, Send(p)), p) else b
  }

  class EventBus {
    var subscribers: map<string, seq<nat>>
    var channels: seq<Chan>
    var publishers: map<nat, Pub>
    var now: nat
    var panicked: bool

    function State(): Bus
      reads this
    {
      Bus(subscribers, channels, publishers, now, panicked)
    }

    constructor ()
      ensures State() == INIT
    {
      subscribers, channels, publishers, now, panicked := map[], [], map[], 0, false;
    }

    method Subscribe(run: string) returns (id: nat)
      requires !panicked
      modifies this
      ensures State() == Apply(old(State()), Step.Subscribe(run)) && id == old(|channels|)
    {
      id := |channels|;
      channels := channels + [NewChan(run)];
      subscribers := subscribers[run := Subs(subscribers, run) + [id]];
      now := now + 1;
    }

    /** The closure Subscribe returns. */
    method Unsubscribe(id: nat)
      requires Inv(State()) && !panicked && id < |channels|
      modifies this
      ensures State() == Apply(old(State()), Step.Unsubscribe(id))
    {
      hide Inv, Apply, SetSubs, Subs, NoDuplicates;
      ghost var before, rest := State(), Subs(subscribers, channels[id].run);
      var ch := channels[id];
      var subs := Subs(subscribers, ch.run);
      for i := 0 to |subs|
        invariant State() == before && rest == subs && id !in subs[..i]
      {
        if subs[i] == id {
          FoundStep(before, id, i);
          rest := subs[..i] + subs[i + 1..];
          subscribers := subscribers[ch.run := subs[..i] + subs[i + 1..]];
          channels := channels[id := ch.(closed := true, closes := ch.closes + 1, closedAt := now + 1)];
          break;
        }
      }
      if id !in subs { MissingStep(before, id); }
      SetSubsEffect(before.subs, subscribers, ch.run, rest);
      if Subs(subscribers, ch.run) == [] {
        subscribers := subscribers - {ch.run};
      }
      now := now + 1;
    }

    /** A whole call with nothing in between: the snapshot, then one send per channel in it. */
    method Publish(p: nat, run: string, payload: string)
      requires Inv(State()) && Enabled(State(), Step.Publish(p, run, payload))
      modifies this
      ensures State() == SendAll(Apply(old(State()), Step.Publish(p, run, payload)), p)
    {
      hide Inv, TrySend, MarkDue, Apply, Enabled, SendAll, PubOf;
      ghost var start := Apply(State(), Step.Publish(p, run, payload));
      SubscribersKnown(State(), run);
      PublishStep(State(), p, run, payload);
      var subs := Subs(subscribers, run);
      var pub := PubOf(State(), p);
      var msg := Msg(p, pub.count, payload);
      channels := MarkDue(channels, subs, msg);
      now := now + 1;
      publishers := publishers[p := Pub(pub.count + 1, msg, subs, now)];
      assert State() == start && subs[0..] == subs;
      KnownPub(State(), p);
      for i := 0 to |subs|
        invariant SendAll(State(), p) == SendAll(start, p) && !panicked && |channels| == |start.chans|
        invariant PubOf(State(), p) == Pub(pub.count + 1, msg, subs[i..], now)
      {
        assert subs[i..] == [subs[i]] + subs[i + 1..] && subs[i] in subs;
        SendStep(State(), p, subs[i], subs[i + 1..]);
        if channels[subs[i]].closed {
          panicked := true;
          SendsOver(State(), p);
          return;
        }
        publishers := publishers[p := Pub(pub.count + 1, msg, subs[i + 1..], now)];
        channels := channels[subs[i] := TrySend(channels[subs[i]], msg)];
        KnownPub(State(), p);
      }
      assert subs[|subs|..] == [];
      SendsOver(State(), p);
    }
  }

  lemma SetSubsEffect(subs: map<string, seq<nat>>, now: map<string, seq<nat>>, run: string, rest: seq<nat>)
    requires now == subs[run := rest] || (now == subs && Subs(subs, run) == rest)
    ensures Subs(now, run) == rest
    ensures SetSubs(subs, run, rest) == if rest == [] then now - {run} else now
  {
  }

  /** Unsubscribing a channel found at place k of its run's list. */
  lemma FoundStep(b: Bus, id: nat, k: nat)
    requires Inv(b) && Enabled(b, Unsubscribe(id))
    requires k < |Subs(b.subs, b.chans[id].run)| && Subs(b.subs, b.chans[id].run)[k] == id
    ensures var ch := b.chans[id];
            var ids := Subs(b.subs, ch.run);
            Apply(b, Unsubscribe(id)) ==
            b.(subs := SetSubs(b.subs, ch.run, ids[..k] + ids[k + 1..]),
               chans := b.chans[id := ch.(closed := true, closes := ch.closes + 1, closedAt := b.now + 1)],
               now := b.now + 1)
  {
    hide SetSubs, Remove;
    assert Registered(b, b.chans[id].run);
    RemoveIsSplice(Subs(b.subs, b.chans[id].run), k);
  }

  lemma MissingStep(b: Bus, id: nat)
    requires Enabled(b, Unsubscribe(id)) && id !in Subs(b.subs, b.chans[id].run)
    ensures var run := b.chans[id].run;
            Apply(b, Unsubscribe(id)) == b.(subs := SetSubs(b.subs, run, Subs(b.subs, run)), now := b.now + 1)
  {
    hide SetSubs, Remove;
  }

  lemma PublishStep(b: Bus, p: nat, run: string, payload: string)
    requires Enabled(b, Publish(p, run, payload))
    ensures !b.panicked
    ensures var pub, ids := PubOf(b, p), Subs(b.subs, run);
            var msg := Msg(p, pub.count, payload);
            Apply(b, Publish(p, run, payload)) ==
            b.(pubs := b.pubs[p := Pub(pub.count + 1, msg, ids, b.now + 1)], chans := MarkDue(b.chans, ids, msg),
               now := b.now + 1)
  {
    hide MarkDue;
  }

  lemma KnownPub(b: Bus, p: nat)
    ensures p in b.pubs ==> PubOf(b, p) == b.pubs[p]
  {
  }

  /** The next send of a call. */
  lemma SendStep(b: Bus, p: nat, id: nat, rest: seq<nat>)
    requires !b.panicked && PubOf(b, p).todo == [id] + rest && id < |b.chans|
    ensures SendAll(b, p) ==
            SendAll(if b.chans[id].closed then b.(panicked := true)
                    else b.(pubs := b.pubs[p := PubOf(b, p).(todo := rest)],
                            chans := b.chans[id := TrySend(b.chans[id], PubOf(b, p).msg)]), p)
  {
    hide TrySend;
    assert ([id] + rest)[1..] == rest;
  }

  lemma SendsOver(b: Bus, p: nat)
    requires b.panicked || PubOf(b, p).todo == []
    ensures SendAll(b, p) == b
  {
  }

  lemma SubscribersKnown(b: Bus, run: string)
    requires Inv(b)
    ensures forall id :: id in Subs(b.subs, run) ==> id < |b.chans|
  {
    assert Registered(b, run);
  }

  lemma {:induction false} SendAllEffect(b: Bus, p: nat, id: nat)
    requires NoDuplicates(PubOf(b, p).todo) && !b.panicked && id < |b.chans|
    requires forall x :: x in PubOf(b, p).todo ==> x < |b.chans| && !b.chans[x].closed
    ensures var b', pub := SendAll(b, p), PubOf(b, p);
            && !b'.panicked && |b'.chans| == |b.chans| && b'.subs == b.subs && PubOf(b', p).todo == []
            && b'.chans[id] == if id in pub.todo then TrySend(b.chans[id], pub.msg) else b.chans[id]
    decreases |PubOf(b, p).todo|
  {
    var pub := PubOf(b, p);
    if pub.todo != [] {
      assert pub.todo == [pub.todo[0]] + pub.todo[1..];
      assert pub.todo[0] in pub.todo && pub.todo[0] !in pub.todo[1..];
      var next := Apply(b, Send(p));
      assert forall x :: x in pub.todo[1..] ==> x in pub.todo;
      SendAllEffect(next, p, id);
    }
  }

  /** An uninterrupted Publish offers its message once to every subscriber of the run and to nobody else,
      and cannot panic. */
  lemma PublishReachesSubscribers(b: Bus, p: nat, run: string, payload: string, id: nat)
    requires Inv(b) && Enabled(b, Publish(p, run, payload)) && id < |b.chans|
    ensures var b' := SendAll(Apply(b, Publish(p, run, payload)), p);
            var ch, msg := b.chans[id], Msg(p, PubOf(b, p).count, payload);
            && !b'.panicked && b'.subs == b.subs && |b'.chans| == |b.chans|
            && b'.chans[id] == if ch.run == run && !ch.closed then TrySend(ch.(due := ch.due + [msg]), msg) else ch
  {
    var b1 := Apply(b, Publish(p, run, payload));
    StepInv(b, Publish(p, run, payload));
    assert PubOK(b1, p) && Registered(b, run) && Registered(b1, run);
    DueAtSubscribers(b, p, run, payload, id);
    assert ChanOK(b, id);
    SendAllEffect(b1, p, id);
  }
}
