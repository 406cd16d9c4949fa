/** The agent's rolling context window: entries are evicted as they arrive, oldest unpinned first.
    Shown equal to one eviction over everything ever added. */
module ContextWindow {
  import opened Text

  datatype Entry = Entry(title: string, content: string, tokens: nat, pinned: bool)

  function MakeEntry(title: string, content: string): Entry {
    Entry(title, content,
          if ByteLength(content) / 4 == 0 then 1 else ByteLength(content) / 4,
          HasPrefix(title, "spec") || HasPrefix(title, "plan"))
  }

  /** An entry as `Add` makes it: a token for every four bytes, one at least; and pinned by its label alone. */
  predicate Estimated(e: Entry) {
    && (if ByteLength(e.content) < 4 then e.tokens == 1 else 4 * e.tokens <= ByteLength(e.content) < 4 * e.tokens + 4)
    && (e.pinned <==> HasPrefix(e.title, "spec") || HasPrefix(e.title, "plan"))
  }

  lemma MadeIsEstimated(title: string, content: string)
    ensures var e := MakeEntry(title, content); Estimated(e) && e.title == title && e.content == content
  {
  }

  function Tokens(es: seq<Entry>): nat {
    if es == [] then 0 else es[0].tokens + Tokens(es[1..])
  }

  function Pinned(es: seq<Entry>): seq<Entry> {
    if es == [] then [] else (if es[0].pinned then [es[0]] else []) + Pinned(es[1..])
  }

  function Unpinned(es: seq<Entry>): seq<Entry> {
    if es == [] then [] else (if es[0].pinned then [] else [es[0]]) + Unpinned(es[1..])
  }

  // ---------------------------------------------------------------- eviction in one go

  /** All pinned entries, and the unpinned ones from position `cut` on, in their original order. */
  function Keep(all: seq<Entry>, cut: nat): seq<Entry>
    requires cut <= |all|
  {
    Pinned(all[..cut]) + all[cut..]
  }

  predicate Fits(all: seq<Entry>, cut: nat, limit: int)
    requires cut <= |all|
  {
    Tokens(Keep(all, cut)) <= limit
  }

  /** The first cut from `from` on that fits, or past the end. */
  function Cut(all: seq<Entry>, limit: int, from: nat): (c: nat)
    requires from <= |all|
    ensures from <= c <= |all|
    decreases |all| - from
  {
    if from == |all| || Fits(all, from, limit) then from else Cut(all, limit, from + 1)
  }

  /** What is left of `all` when eviction runs once, at the end. */
  function Kept(all: seq<Entry>, limit: int): seq<Entry> {
    Keep(all, Cut(all, limit, 0))
  }

  lemma {:induction false} CutIsFirst(all: seq<Entry>, limit: int, from: nat, c: nat)
    requires from <= c <= |all| && (c == |all| || Fits(all, c, limit))
    requires forall b :: from <= b < c ==> !Fits(all, b, limit)
    ensures Cut(all, limit, from) == c
    decreases c - from
  {
    if from < c {
      CutIsFirst(all, limit, from + 1, c);
    }
  }

  lemma {:induction false} BelowCut(all: seq<Entry>, limit: int, from: nat)
    requires from <= |all|
    ensures var c := Cut(all, limit, from);
            && (c == |all| || Fits(all, c, limit))
            && forall b :: from <= b < c ==> !Fits(all, b, limit)
    decreases |all| - from
  {
    if !(from == |all| || Fits(all, from, limit)) {
      BelowCut(all, limit, from + 1);
    }
  }

  // ---------------------------------------------------------------- lists

  lemma {:induction false} TokensConcat(a: seq<Entry>, b: seq<Entry>)
    ensures Tokens(a + b) == Tokens(a) + Tokens(b)
  {
    if a == [] {
      assert a + b == b;
    } else {
      assert (a + b)[1..] == a[1..] + b;
      TokensConcat(a[1..], b);
    }
  }

  lemma {:induction false} PinnedConcat(a: seq<Entry>, b: seq<Entry>)
    ensures Pinned(a + b) == Pinned(a) + Pinned(b)
  {
    if a == [] {
      assert a + b == b && [] + Pinned(b) == Pinned(b);
    } else {
      var head := if a[0].pinned then [a[0]] else [];
      assert (a + b)[1..] == a[1..] + b && Pinned(a + b) == head + Pinned((a + b)[1..]);
      PinnedConcat(a[1..], b);
      assert head + (Pinned(a[1..]) + Pinned(b)) == head + Pinned(a[1..]) + Pinned(b);
    }
  }

  lemma {:induction false} UnpinnedConcat(a: seq<Entry>, b: seq<Entry>)
    ensures Unpinned(a + b) == Unpinned(a) + Unpinned(b)
  {
    if a == [] {
      assert a + b == b && [] + Unpinned(b) == Unpinned(b);
    } else {
      var head := if a[0].pinned then [] else [a[0]];
      assert (a + b)[1..] == a[1..] + b && Unpinned(a + b) == head + Unpinned((a + b)[1..]);
      UnpinnedConcat(a[1..], b);
      assert head + (Unpinned(a[1..]) + Unpinned(b)) == head + Unpinned(a[1..]) + Unpinned(b);
    }
  }

  lemma Concat(a: seq<Entry>, b: seq<Entry>)
    ensures Tokens(a + b) == Tokens(a) + Tokens(b)
    ensures Pinned(a + b) == Pinned(a) + Pinned(b)
    ensures Unpinned(a + b) == Unpinned(a) + Unpinned(b)
  {
    TokensConcat(a, b);
    PinnedConcat(a, b);
    UnpinnedConcat(a, b);
  }

  lemma {:induction false} Split(es: seq<Entry>)
    ensures Tokens(es) == Tokens(Pinned(es)) + Tokens(Unpinned(es))
    ensures Pinned(Pinned(es)) == Pinned(es) && Unpinned(Pinned(es)) == []
    ensures |Unpinned(es)| <= |es|
  {
    if es != [] {
      Split(es[1..]);
      if es[0].pinned {
        assert Pinned(es)[1..] == Pinned(es[1..]) && Unpinned(es) == Unpinned(es[1..]);
      } else {
        assert Unpinned(es)[1..] == Unpinned(es[1..]) && Pinned(es) == Pinned(es[1..]);
      }
    }
  }

  lemma {:induction false} AllPinned(es: seq<Entry>)
    requires forall i :: 0 <= i < |es| ==> es[i].pinned
    ensures Pinned(es) == es && Unpinned(es) == []
  {
    if es != [] {
      AllPinned(es[1..]);
      assert es == [es[0]] + es[1..];
    }
  }

  /** A kept list in terms of its pinned and unpinned parts. */
  lemma KeepParts(all: seq<Entry>, cut: nat)
    requires cut <= |all|
    ensures Pinned(Keep(all, cut)) == Pinned(all)
    ensures Unpinned(Keep(all, cut)) == Unpinned(all[cut..])
    ensures Tokens(Keep(all, cut)) == Tokens(Pinned(all)) + Tokens(Unpinned(all[cut..]))
  {
    assert all == all[..cut] + all[cut..];
    Concat(all[..cut], all[cut..]);
    Split(all[..cut]);
    Concat(Pinned(all[..cut]), all[cut..]);
    Split(Keep(all, cut));
  }

  /** Adding an entry can only push the cut further right. */
  lemma NoFitGrows(all: seq<Entry>, e: Entry, b: nat, limit: int)
    requires b <= |all| && !Fits(all, b, limit)
    ensures !Fits(all + [e], b, limit)
  {
    KeepParts(all, b);
    KeepParts(all + [e], b);
    assert (all + [e])[b..] == all[b..] + [e];
    Concat(all[b..], [e]);
    Concat(all, [e]);
    Concat(Pinned(all), Pinned([e]));
    Concat(Unpinned(all[b..]), Unpinned([e]));
  }

  lemma {:induction false} PinnedArePinned(es: seq<Entry>)
    ensures forall i :: 0 <= i < |Pinned(es)| ==> Pinned(es)[i].pinned
  {
    if es != [] {
      PinnedArePinned(es[1..]);
    }
  }

  lemma KeepGrows(all: seq<Entry>, e: Entry, cut: nat)
    requires cut <= |all|
    ensures Keep(all + [e], cut) == Keep(all, cut) + [e]
    ensures Tokens(Keep(all, cut) + [e]) == Tokens(Keep(all, cut)) + e.tokens
  {
    assert (all + [e])[..cut] == all[..cut] && (all + [e])[cut..] == all[cut..] + [e];
    TokensConcat(Keep(all, cut), [e]);
  }

  /** Pinned entries at the cut do not care which side of it they are on. */
  lemma KeepSkipsPinned(all: seq<Entry>, cut: nat, k: nat)
    requires cut <= k <= |all| && forall i :: cut <= i < k ==> all[i].pinned
    ensures Keep(all, k) == Keep(all, cut)
  {
    assert all[..k] == all[..cut] + all[cut..k] && all[cut..] == all[cut..k] + all[k..];
    PinnedConcat(all[..cut], all[cut..k]);
    AllPinned(all[cut..k]);
  }

  /** The position in `all` of the first unpinned entry of a kept list. */
  lemma FirstUnpinned(all: seq<Entry>, cut: nat, idx: nat) returns (k: nat)
    requires cut <= |all| && idx < |Keep(all, cut)|
    requires !Keep(all, cut)[idx].pinned && forall i :: 0 <= i < idx ==> Keep(all, cut)[i].pinned
    ensures cut <= k < |all| && !all[k].pinned && forall i :: cut <= i < k ==> all[i].pinned
    ensures idx == |Pinned(all[..cut])| + (k - cut)
  {
    var before := Pinned(all[..cut]);
    PinnedArePinned(all[..cut]);
    k := cut + (idx - |before|);
    forall i | cut <= i < k ensures all[i].pinned {
      assert Keep(all, cut)[|before| + (i - cut)] == all[i];
    }
  }

  /** Removing the first unpinned entry of a kept list moves the cut just past it. */
  lemma EvictOne(all: seq<Entry>, cut: nat, idx: nat) returns (next: nat)
    requires cut <= |all| && idx < |Keep(all, cut)|
    requires !Keep(all, cut)[idx].pinned && forall i :: 0 <= i < idx ==> Keep(all, cut)[i].pinned
    ensures cut < next <= |all|
    ensures Keep(all, next) == Keep(all, cut)[..idx] + Keep(all, cut)[idx + 1..]
    ensures forall b :: cut <= b < next ==> Keep(all, b) == Keep(all, cut)
  {
    hide Keep, Pinned;
    var k := FirstUnpinned(all, cut, idx);
    next := k + 1;
    forall b | cut <= b < next ensures Keep(all, b) == Keep(all, cut) {
      KeepSkipsPinned(all, cut, b);
    }
    SkippedLength(all, cut, k);
    DropAtCut(all, k);
  }

  lemma SkippedLength(all: seq<Entry>, cut: nat, k: nat)
    requires cut <= k <= |all| && forall i :: cut <= i < k ==> all[i].pinned
    ensures |Pinned(all[..k])| == |Pinned(all[..cut])| + (k - cut)
  {
    assert all[..k] == all[..cut] + all[cut..k];
    PinnedConcat(all[..cut], all[cut..k]);
    AllPinned(all[cut..k]);
  }

  lemma DropAtCut(all: seq<Entry>, k: nat)
    requires k < |all| && !all[k].pinned
    ensures var p, kept := |Pinned(all[..k])|, Keep(all, k);
            Keep(all, k + 1) == kept[..p] + kept[p + 1..]
  {
    assert all[..k + 1] == all[..k] + [all[k]] && all[k..] == [all[k]] + all[k + 1..];
    PinnedConcat(all[..k], [all[k]]);
  }

  /** Nothing unpinned left: the list is what remains when no suffix fits at all. */
  lemma NothingToEvict(all: seq<Entry>, cut: nat, limit: int)
    requires cut <= |all| && Tokens(Keep(all, cut)) > limit
    requires forall i :: 0 <= i < |Keep(all, cut)| ==> Keep(all, cut)[i].pinned
    ensures Keep(all, cut) == Keep(all, |all|)
    ensures forall b :: cut <= b <= |all| ==> !Fits(all, b, limit)
  {
    forall i | cut <= i < |all| ensures all[i].pinned {
      assert Keep(all, cut)[|Pinned(all[..cut])| + (i - cut)] == all[i];
    }
    forall b | cut <= b <= |all| ensures Keep(all, b) == Keep(all, cut) {
      KeepSkipsPinned(all, cut, b);
    }
  }

  lemma RemoveToken(es: seq<Entry>, idx: nat)
    requires idx < |es|
    ensures Tokens(es[..idx] + es[idx + 1..]) == Tokens(es) - es[idx].tokens
  {
    hide Tokens;
    var front, back := es[..idx], es[idx + 1..];
    assert es == front + ([es[idx]] + back);
    TokensConcat(front, [es[idx]] + back);
    TokensConcat([es[idx]], back);
    TokensOfOne(es[idx]);
    TokensConcat(front, back);
  }

  // ---------------------------------------------------------------- the builder

  function Section(e: Entry): string {
    "## " + e.title + "\n" + e.content + "\n\n"
  }

  function Rendered(es: seq<Entry>): string {
    if es == [] then "" else Rendered(es[..|es| - 1]) + Section(es[|es| - 1])
  }

  /** `limit` is 70% of the token budget, as computed by the caller's float arithmetic. */
  class ContextBuilder {
    const limit: int
    var total: int
    var entries: seq<Entry>
    ghost var added: seq<Entry>

    ghost predicate Valid()
      reads this
    {
      entries == Kept(added, limit) && total == Tokens(entries)
    }

    constructor (limit: int)
      ensures Valid() && this.limit == limit && added == []
    {
      this.limit := limit;
      total, entries, added := 0, [], [];
    }

    /** However many calls came before, the entries are what one eviction at the end would leave. */
    method Add(title: string, content: string)
      requires Valid()
      modifies this
      ensures Valid() && added == old(added) + [MakeEntry(title, content)]
      ensures var e := added[|old(added)|]; e.title == title && e.content == content && Estimated(e)
    {
      var e := MakeEntry(title, content);
      MadeIsEstimated(title, content);
      hide Keep, Tokens, MakeEntry, Estimated;
      ghost var cut := Cut(added, limit, 0);
      BelowCut(added, limit, 0);
      forall b | 0 <= b < cut ensures !Fits(added + [e], b, limit) {
        NoFitGrows(added, e, b, limit);
      }
      KeepGrows(added, e, cut);
      entries := entries + [e];
      total := total + e.tokens;
      added := added + [e];
      EvictIfNeeded(cut);
    }

    /** `cut` is where the entries currently start; no earlier cut fits. */
    method EvictIfNeeded(ghost cut: nat)
      requires cut <= |added| && entries == Keep(added, cut) && total == Tokens(entries)
      requires forall b :: 0 <= b < cut ==> !Fits(added, b, limit)
      modifies this
      ensures Valid() && added == old(added)
    {
      hide Keep, Tokens, Cut;
      ghost var c: nat := cut;
      while total > limit
        invariant added == old(added) && c <= |added| && entries == Keep(added, c) && total == Tokens(entries)
        invariant forall b :: 0 <= b < c ==> !Fits(added, b, limit)
        decreases |entries|
      {
        var idx := OldestUnpinnedIdx();
        if idx < 0 {
          NothingToEvict(added, c, limit);
          CutIsFirst(added, limit, 0, |added|);
          return;
        }
        ghost var next := EvictOne(added, c, idx);
        RemoveToken(entries, idx);
        total := total - entries[idx].tokens;
        entries := entries[..idx] + entries[idx + 1..];
        c := next;
      }
      CutIsFirst(added, limit, 0, c);
    }

    method OldestUnpinnedIdx() returns (idx: int)
      ensures -1 <= idx < |entries|
      ensures idx < 0 ==> forall i :: 0 <= i < |entries| ==> entries[i].pinned
      ensures idx >= 0 ==> !entries[idx].pinned && forall i :: 0 <= i < idx ==> entries[i].pinned
    {
      for i := 0 to |entries|
        invariant forall j :: 0 <= j < i ==> entries[j].pinned
      {
        if !entries[i].pinned { return i; }
      }
      return -1;
    }

    method Build() returns (text: string)
      ensures text == Rendered(entries)
    {
      text := "";
      for i := 0 to |entries|
        invariant text == Rendered(entries[..i])
      {
        assert entries[..i + 1][..i] == entries[..i];
        text := text + ("## " + entries[i].title + "\n" + entries[i].content + "\n\n");
      }
      assert entries[..|entries|] == entries;
    }
  }

  // ---------------------------------------------------------------- what is kept

  lemma {:induction false} SuffixOfUnpinned(all: seq<Entry>, cut: nat)
    requires cut <= |all|
    ensures |Unpinned(all[..cut])| <= |Unpinned(all)|
    ensures Unpinned(all[cut..]) == Unpinned(all)[|Unpinned(all[..cut])|..]
  {
    assert all == all[..cut] + all[cut..];
    Concat(all[..cut], all[cut..]);
  }

  /** Every position in the unpinned list is reached by some cut. */
  lemma {:induction false} CutForUnpinned(all: seq<Entry>, n: nat) returns (cut: nat)
    requires n < |Unpinned(all)|
    ensures cut < |all| && |Unpinned(all[..cut])| == n && !all[cut].pinned
  {
    if n == 0 && !all[0].pinned {
      cut := 0;
    } else {
      var c := CutForUnpinned(all[1..], if all[0].pinned then n else n - 1);
      cut := c + 1;
      assert all[..cut] == [all[0]] + all[1..][..c];
      Concat([all[0]], all[1..][..c]);
    }
  }

  lemma CutOrder(all: seq<Entry>, a: nat, b: nat)
    requires a <= |all| && b <= |all| && |Unpinned(all[..b])| < |Unpinned(all[..a])|
    ensures b < a
  {
    if a <= b {
      assert all[..b] == all[..a] + all[a..b];
      UnpinnedConcat(all[..a], all[a..b]);
    }
  }

  /** The kept entries, in their original order, are all the pinned ones and the longest suffix of the unpinned
      ones that fits the limit together with all pinned tokens (nothing, if not even the last one fits). */
  lemma KeptIsLongestFittingSuffix(all: seq<Entry>, limit: int) returns (n: nat, cut: nat)
    ensures cut <= |all| && Kept(all, limit) == Pinned(all[..cut]) + all[cut..]
    ensures Pinned(Kept(all, limit)) == Pinned(all)
    ensures n <= |Unpinned(all)| && Unpinned(Kept(all, limit)) == Unpinned(all)[n..]
    ensures n < |Unpinned(all)| ==> Tokens(Pinned(all)) + Tokens(Unpinned(all)[n..]) <= limit
    ensures forall m :: 0 <= m < n ==> Tokens(Pinned(all)) + Tokens(Unpinned(all)[m..]) > limit
  {
    cut := Cut(all, limit, 0);
    BelowCut(all, limit, 0);
    KeepParts(all, cut);
    SuffixOfUnpinned(all, cut);
    n := |Unpinned(all[..cut])|;
    if cut == |all| {
      assert all[..cut] == all;
    }
    forall m | 0 <= m < n ensures Tokens(Pinned(all)) + Tokens(Unpinned(all)[m..]) > limit {
      var b := CutForUnpinned(all, m);
      CutOrder(all, cut, b);
      assert !Fits(all, b, limit);
      KeepParts(all, b);
      SuffixOfUnpinned(all, b);
    }
  }

  /** The token count stays within the limit unless only pinned entries are left. */
  lemma WithinLimitUnlessPinnedOnly(all: seq<Entry>, limit: int)
    ensures Tokens(Kept(all, limit)) <= limit || Unpinned(Kept(all, limit)) == []
  {
    var n, cut := KeptIsLongestFittingSuffix(all, limit);
    Split(Kept(all, limit));
  }

  lemma {:induction false} NonePinned(es: seq<Entry>)
    requires forall i :: 0 <= i < |es| ==> !es[i].pinned
    ensures Pinned(es) == []
  {
    if es != [] {
      NonePinned(es[1..]);
    }
  }

  /** Two pinned entries added first stay first, exactly once each, as long as nothing else is pinned. */
  lemma PinnedHeadStaysFirst(all: seq<Entry>, limit: int)
    requires |all| >= 2 && all[0].pinned && all[1].pinned
    requires forall i :: 2 <= i < |all| ==> !all[i].pinned
    ensures var kept := Kept(all, limit);
            && |kept| >= 2 && kept[0] == all[0] && kept[1] == all[1]
            && forall i :: 2 <= i < |kept| ==> !kept[i].pinned
  {
    var cut := Cut(all, limit, 0);
    if cut <= 2 {
      KeepSkipsPinned(all, 0, cut);
      assert Keep(all, 0) == all;
    } else {
      assert all[..cut] == [all[0], all[1]] + all[2..cut];
      PinnedConcat([all[0], all[1]], all[2..cut]);
      NonePinned(all[2..cut]);
      AllPinned([all[0], all[1]]);
    }
  }

  // ---------------------------------------------------------------- bytes, and text

  /** The bytes of all contents. */
  function Bytes(es: seq<Entry>): nat {
    if es == [] then 0 else ByteLength(es[0].content) + Bytes(es[1..])
  }

  lemma {:induction false} PinnedWithin(es: seq<Entry>)
    ensures forall e :: e in Pinned(es) ==> e in es
  {
    if es != [] {
      PinnedWithin(es[1..]);
    }
  }

  /** Everything kept was added. */
  lemma KeptWithin(all: seq<Entry>, limit: int)
    ensures forall e :: e in Kept(all, limit) ==> e in all
  {
    PinnedWithin(all[..Cut(all, limit, 0)]);
  }

  lemma {:induction false} BytesOfTokens(es: seq<Entry>)
    requires forall e :: e in es ==> Estimated(e)
    ensures Bytes(es) <= 4 * Tokens(es) + 3 * |es|
    ensures 4 * (Tokens(es) - |es|) <= Bytes(es)
  {
    hide ByteLength, HasPrefix;
    if es != [] {
      assert Estimated(es[0]);
      BytesOfTokens(es[1..]);
    }
  }

  /** The limit in bytes: the contents kept come to at most four times the limit and three bytes an entry, unless only
      pinned entries are left. */
  lemma BytesWithinLimit(all: seq<Entry>, limit: int)
    requires forall e :: e in all ==> Estimated(e)
    ensures Bytes(Kept(all, limit)) <= 4 * limit + 3 * |Kept(all, limit)| || Unpinned(Kept(all, limit)) == []
  {
    hide Kept, Estimated;
    KeptWithin(all, limit);
    BytesOfTokens(Kept(all, limit));
    WithinLimitUnlessPinnedOnly(all, limit);
  }

  /** An entry too big for the limit does not survive its own addition, unless it is pinned. */
  lemma TooBigIsEvicted(all: seq<Entry>, e: Entry, limit: int)
    requires Estimated(e) && !e.pinned && ByteLength(e.content) >= 4 * limit + 4 && limit >= 0
    ensures Unpinned(Kept(all + [e], limit)) == []
  {
    hide Kept, Tokens, ByteLength, HasPrefix;
    var n, cut := KeptIsLongestFittingSuffix(all + [e], limit);
    UnpinnedConcat(all, [e]);
    var un := Unpinned(all + [e]);
    assert Unpinned([e]) == [e] by { assert [e][1..] == []; }
    if n < |un| {
      assert un[n..] == un[n..|un| - 1] + [e];
      TokensConcat(un[n..|un| - 1], [e]);
      assert Tokens([e]) == e.tokens by { TokensOfOne(e); }
    }
  }

  lemma TokensOfOne(e: Entry)
    ensures Tokens([e]) == e.tokens
  {
    assert [e][1..] == [];
  }

  lemma OneSection(b: seq<Entry>)
    ensures |b| == 1 ==> Rendered(b) == "## " + b[0].title + "\n" + b[0].content + "\n\n"
  {
    if |b| == 1 {
      var section := Section(b[0]);
      assert b[..0] == [] && "" + section == section;
    }
  }

  /** The prompt text: each entry under its own heading, in order. */
  lemma {:induction false} RenderedInOrder(a: seq<Entry>, b: seq<Entry>)
    ensures Rendered(a + b) == Rendered(a) + Rendered(b)
    ensures |b| == 1 ==> Rendered(b) == "## " + b[0].title + "\n" + b[0].content + "\n\n"
  {
    hide Rendered, Section;
    OneSection(b);
    if b == [] {
      assert a + b == a;
      NothingRendered();
    } else {
      var front := b[..|b| - 1];
      assert a + b == (a + front) + [b[|b| - 1]] && b == front + [b[|b| - 1]];
      RenderedInOrder(a, front);
      RenderedLast(a + front, b[|b| - 1]);
      RenderedLast(front, b[|b| - 1]);
    }
  }

  lemma NothingRendered()
    ensures Rendered([]) == ""
  {
  }

  lemma RenderedLast(es: seq<Entry>, e: Entry)
    ensures Rendered(es + [e]) == Rendered(es) + Section(e)
  {
    hide Section;
    assert (es + [e])[..|es|] == es;
  }
}
