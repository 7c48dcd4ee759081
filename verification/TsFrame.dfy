/** src/ts_demux.c, ts_demux_feed as a machine over single bytes: finding packets in any byte stream,
    cut into feeds in any way. */
module TsFrame {
  import opened Prelude
  import opened TsPacket

  const SYNC: byte := 0x47
  const RESYNC_MAX := 0x1_0000

  datatype Demux = Demux(buf: Bytes, synced: bool, core: Core)

  const NEW_DEMUX := Demux([], false, NEW_CORE)

  function DemuxReset(d: Demux): Demux {
    Demux([], false, CoreReset(d.core))
  }

  // The bytes gathered before anything is decided: a packet, or a candidate and its confirmation.
  function Want(synced: bool): nat {
    if synced then PKT else 2 * PKT
  }

  predicate Valid(d: Demux) {
    CoreValid(d.core) && |d.buf| <= Want(d.synced)
  }

  predicate Full(d: Demux) {
    |d.buf| == Want(d.synced)
  }

  // shift_to_next_sync: how many bytes go.
  function NextSync(buf: Bytes, k: nat): (r: nat)
    requires k <= |buf|
    ensures k <= r <= |buf|
    ensures forall i | k <= i < r :: buf[i] != SYNC
    ensures r < |buf| ==> buf[r] == SYNC
    decreases |buf| - k
  {
    if k == |buf| || buf[k] == SYNC then k else NextSync(buf, k + 1)
  }

  // What a full buffer leads to: the new demuxer, the callback's bytes if it is called, and the number
  // of bytes discarded.
  datatype Turn = Turn(d: Demux, out: Option<Bytes>, dropped: nat)

  predicate Confirmed(d: Demux)
    requires Full(d)
  {
    if d.synced then d.buf[0] == SYNC else HeaderOk(d.buf[..PKT]) && HeaderOk(d.buf[PKT..])
  }

  function Act(d: Demux): (t: Turn)
    requires Valid(d) && Full(d)
    ensures |t.d.buf| < |d.buf|
  {
    if Confirmed(d) then
      var (core, out) := Process(d.core, d.buf[..PKT]);
      Turn(Demux(d.buf[PKT..], true, core), out, 0)
    else
      var k := NextSync(d.buf, 1);
      Turn(Demux(d.buf[k..], false, d.core), None, k)
  }

  lemma ActValid(d: Demux)
    requires Valid(d) && Full(d)
    ensures Valid(Act(d).d)
  {
    ProcessValid(d.core, d.buf[..PKT]);
    hide Process, NextSync, HeaderOk;
  }

  // A byte that cannot start a packet where one is looked for.
  predicate Stray(d: Demux, b: byte) {
    !d.synced && d.buf == [] && b != SYNC
  }

  function Append(d: Demux, b: byte): Demux {
    if Stray(d, b) then d else d.(buf := d.buf + [b])
  }

  // ---- one feed ---------------------------------------------------------------------------------------

  // How a feed stands: -1 and 1 are its return codes when it is not Going to the end.
  datatype Verdict = Going | Stopped | Garbage

  // answers says of each callback of the feed whether it asks to stop; beyond its end none does.
  datatype Feed = Feed(d: Demux, junk: nat, outs: seq<Bytes>, verdict: Verdict, answers: seq<bool>)

  function Begin(d: Demux, answers: seq<bool>): Feed {
    Feed(d, 0, [], Going, answers)
  }

  // Too many bytes discarded in a row: the demuxer is reset and the feed gives up.
  function Budget(f: Feed): Feed {
    if f.junk > RESYNC_MAX then f.(d := DemuxReset(f.d), junk := 0, verdict := Garbage) else f
  }

  predicate Asks(f: Feed) {
    |f.outs| < |f.answers| && f.answers[|f.outs|]
  }

  function Acted(f: Feed): Feed
    requires Valid(f.d) && Full(f.d)
  {
    var t := Act(f.d);
    if t.dropped > 0 then
      var f' := f.(d := t.d, junk := f.junk + t.dropped);
      if f.d.synced then f' else Budget(f')
    else
      var f' := f.(d := t.d, junk := if f.d.synced then f.junk else 0);
      if t.out.None? then f'
      else f'.(outs := f.outs + [t.out.value], verdict := if Asks(f) then Stopped else Going)
  }

  // A packet, and bytes to discard.
  lemma ActedPacket(f: Feed)
    requires Valid(f.d) && Full(f.d) && Confirmed(f.d)
    ensures var (core, out) := Process(f.d.core, f.d.buf[..PKT]);
      var g := Acted(f);
      && g.d == Demux(f.d.buf[PKT..], true, core) && g.junk == (if f.d.synced then f.junk else 0)
      && g.answers == f.answers && g.outs == (if out.Some? then f.outs + [out.value] else f.outs)
      && g.verdict == if out.None? then f.verdict else if Asks(f) then Stopped else Going
  {
    hide Process, Confirmed;
  }

  lemma ActedDrops(f: Feed)
    requires Valid(f.d) && Full(f.d) && !Confirmed(f.d)
    ensures var k := NextSync(f.d.buf, 1);
      var f' := f.(d := Demux(f.d.buf[k..], false, f.d.core), junk := f.junk + k);
      Acted(f) == if f.d.synced then f' else Budget(f')
  {
    hide Process, Confirmed, Budget;
  }

  function Taken(f: Feed, b: byte): Feed {
    if Stray(f.d, b) then Budget(f.(junk := f.junk + 1)) else f.(d := Append(f.d, b))
  }

  predicate FeedValid(f: Feed) {
    Valid(f.d)
  }

  lemma ActedValid(f: Feed)
    requires FeedValid(f) && Full(f.d)
    ensures FeedValid(Acted(f)) && |Acted(f).d.buf| < |f.d.buf|
  {
    ActValid(f.d);
    hide Act;
  }

  // While aligned nothing counts as discarded, and otherwise the budget is checked at once or cannot be
  // exhausted.
  lemma ActedJunk(f: Feed)
    requires FeedValid(f) && Full(f.d) && f.junk <= RESYNC_MAX && (f.d.synced ==> f.junk == 0)
    ensures Acted(f).junk <= RESYNC_MAX && (Acted(f).d.synced ==> Acted(f).junk == 0)
  {
    hide Process, HeaderOk;
  }

  lemma TakenValid(f: Feed, b: byte)
    requires FeedValid(f) && !Full(f.d)
    ensures FeedValid(Taken(f, b))
  {}

  // The feed after some more data: whenever the buffer is full it acts, otherwise it takes a byte.
  function Go(f: Feed, data: Bytes): (r: Feed)
    requires FeedValid(f)
    ensures FeedValid(r)
    decreases |data|, |f.d.buf|
  {
    if f.verdict != Going then f
    else if Full(f.d) then
      ActedValid(f);
      Go(Acted(f), data)
    else if data == [] then f
    else
      TakenValid(f, data[0]);
      Go(Taken(f, data[0]), data[1..])
  }

  // ---- the same without a budget ------------------------------------------------------------------------

  datatype Flow = Flow(d: Demux, outs: seq<Bytes>, dropped: nat)

  function Then(t: Turn, w: Flow): Flow {
    Flow(w.d, (if t.out.Some? then [t.out.value] else []) + w.outs, t.dropped + w.dropped)
  }

  // What a demuxer makes of data when nobody stops it and discarding is free.
  function Free(d: Demux, data: Bytes): (w: Flow)
    requires Valid(d)
    ensures Valid(w.d)
    decreases |data|, |d.buf|
  {
    if Full(d) then
      ActValid(d);
      Then(Act(d), Free(Act(d).d, data))
    else if data == [] then Flow(d, [], 0)
    else
      var w := Free(Append(d, data[0]), data[1..]);
      if Stray(d, data[0]) then w.(dropped := w.dropped + 1) else w
  }

  // One flow after another.
  function Join(v: Flow, w: Flow): Flow {
    Flow(w.d, v.outs + w.outs, v.dropped + w.dropped)
  }

  lemma FreeUnfolds(d: Demux, data: Bytes)
    requires Valid(d)
    ensures Full(d) ==> Valid(Act(d).d) && Free(d, data) == Then(Act(d), Free(Act(d).d, data))
    ensures !Full(d) ==> Free(d, []) == Flow(d, [], 0)
    ensures !Full(d) && data != [] ==>
      Valid(Append(d, data[0])) &&
      var w := Free(Append(d, data[0]), data[1..]);
      Free(d, data) == if Stray(d, data[0]) then w.(dropped := w.dropped + 1) else w
  {
    hide Act, Append, Stray, Then;
    if Full(d) { ActValid(d); } else if data != [] { AppendValid(d, data[0]); }
  }

  // The callbacks so far: the last one asked to stop exactly if the feed was stopped, and none before it did.
  predicate Heard(f: Feed) {
    && (f.verdict.Stopped? <==> 0 < |f.outs| <= |f.answers| && f.answers[|f.outs| - 1])
    && forall k | 0 <= k < |f.outs| - 1 && k < |f.answers| :: !f.answers[k]
  }

  lemma ActedHeard(f: Feed)
    requires FeedValid(f) && Full(f.d) && f.verdict.Going? && Heard(f)
    ensures Heard(Acted(f)) && Acted(f).answers == f.answers
    ensures var out := Act(f.d).out;
      && Acted(f).outs == f.outs + (if out.Some? then [out.value] else [])
      && (Acted(f).verdict.Going? ==> Acted(f).d == Act(f.d).d)
  {
    hide Act, FeedValid, Full;
    ActedOuts(f);
  }

  // Only a packet hands something out.
  lemma ActedOuts(f: Feed)
    requires FeedValid(f) && Full(f.d)
    ensures Act(f.d).dropped > 0 ==> Act(f.d).out.None?
  {
    hide Process, HeaderOk;
  }

  lemma TakenHeard(f: Feed, b: byte)
    requires FeedValid(f) && !Full(f.d) && f.verdict.Going? && Heard(f)
    ensures Heard(Taken(f, b)) && Taken(f, b).answers == f.answers && Taken(f, b).outs == f.outs
    ensures Taken(f, b).verdict.Going? ==> Taken(f, b).d == Append(f.d, b)
  {}

  lemma {:induction false} GoHears(f: Feed, data: Bytes)
    requires FeedValid(f) && f.verdict.Going? && Heard(f)
    ensures Heard(Go(f, data)) && Go(f, data).answers == f.answers
    ensures Go(f, data).outs <= f.outs + Free(f.d, data).outs
    decreases |data|, |f.d.buf|
  {
    hide Acted, Taken, Heard, Act, Append, Stray, Full;
    FreeUnfolds(f.d, data);
    var next := f;
    if Full(f.d) {
      ActedValid(f);
      ActedHeard(f);
      next := Acted(f);
      if next.verdict.Going? { GoHears(next, data); }
    } else if data != [] {
      TakenValid(f, data[0]);
      TakenHeard(f, data[0]);
      next := Taken(f, data[0]);
      if next.verdict.Going? { GoHears(next, data[1..]); }
    }
  }

  /** A feed is stopped by the first callback that asks for it, and by nothing else; up to then the callbacks
      get what they would get in a feed that nobody stops. */
  lemma StopsWhenAsked(d: Demux, answers: seq<bool>, data: Bytes)
    requires Valid(d)
    ensures var f := Go(Begin(d, answers), data);
      && (f.verdict.Stopped? <==> 0 < |f.outs| <= |answers| && answers[|f.outs| - 1])
      && (forall k | 0 <= k < |f.outs| - 1 && k < |answers| :: !answers[k])
      && f.outs <= Free(d, data).outs
  {
    hide Go, Free, Valid;
    GoHears(Begin(d, answers), data);
    assert [] + Free(d, data).outs == Free(d, data).outs;
  }

  lemma JoinsThen(t: Turn, v: Flow, w: Flow)
    ensures Then(t, Join(v, w)) == Join(Then(t, v), w) && Then(t, v).d == v.d
  {}

  lemma JoinsDropped(v: Flow, w: Flow)
    ensures Join(v, w).(dropped := Join(v, w).dropped + 1) == Join(v.(dropped := v.dropped + 1), w)
  {}

  lemma JoinsNothing(d: Demux, w: Flow)
    ensures Join(Flow(d, [], 0), w) == w
  {}

  lemma {:induction false} FreeJoins(d: Demux, a: Bytes, b: Bytes)
    requires Valid(d)
    ensures Free(d, a + b) == Join(Free(d, a), Free(Free(d, a).d, b))
    decreases |a|, |d.buf|
  {
    hide Act, Append, Stray, Free, Then, Join, Valid, Full;
    FreeUnfolds(d, a);
    FreeUnfolds(d, a + b);
    if Full(d) {
      ActValid(d);
      FreeJoins(Act(d).d, a, b);
      JoinsThen(Act(d), Free(Act(d).d, a), Free(Free(d, a).d, b));
    } else if a == [] {
      assert a + b == b;
      JoinsNothing(d, Free(d, b));
    } else {
      assert (a + b)[0] == a[0] && (a + b)[1..] == a[1..] + b;
      var d' := Append(d, a[0]);
      FreeJoins(d', a[1..], b);
      JoinsDropped(Free(d', a[1..]), Free(Free(d, a).d, b));
    }
  }

  lemma AppendValid(d: Demux, b: byte)
    requires Valid(d) && !Full(d)
    ensures Valid(Append(d, b))
  {}

  lemma ActedTurn(f: Feed)
    requires FeedValid(f) && Full(f.d) && f.verdict.Going? && Acted(f).verdict.Going?
    ensures Acted(f).d == Act(f.d).d
    ensures Acted(f).outs == f.outs + if Act(f.d).out.Some? then [Act(f.d).out.value] else []
  {
    hide Process, NextSync, HeaderOk;
  }

  /** A feed that runs to its end does what the unbudgeted machine does. */
  lemma {:induction false} GoIsFree(f: Feed, data: Bytes)
    requires FeedValid(f) && f.verdict.Going? && Go(f, data).verdict.Going?
    ensures Go(f, data).d == Free(f.d, data).d
    ensures Go(f, data).outs == f.outs + Free(f.d, data).outs
    decreases |data|, |f.d.buf|
  {
    if Full(f.d) {
      GoUnfolds(f, data);
      FreeUnfolds(f.d, data);
      ActedTurn(f);
      hide Go, Free, Act, Acted, Valid;
      GoIsFree(Acted(f), data);
      var out := if Act(f.d).out.Some? then [Act(f.d).out.value] else [];
      var more := Free(Act(f.d).d, data).outs;
      assert f.outs + out + more == f.outs + (out + more);
    } else if data != [] {
      GoUnfolds(f, data);
      FreeUnfolds(f.d, data);
      TakenGoes(f, data);
      hide Go, Free, Valid, Full;
      GoIsFree(Taken(f, data[0]), data[1..]);
    }
  }

  // One step of each.
  lemma GoUnfolds(f: Feed, data: Bytes)
    requires FeedValid(f) && f.verdict.Going?
    ensures Full(f.d) ==> FeedValid(Acted(f)) && |Acted(f).d.buf| < |f.d.buf| && Go(f, data) == Go(Acted(f), data)
    ensures Full(f.d) && !Acted(f).verdict.Going? ==> Go(f, data) == Acted(f)
    ensures !Full(f.d) && data != [] ==>
      FeedValid(Taken(f, data[0])) && Go(f, data) == Go(Taken(f, data[0]), data[1..])
  {
    if Full(f.d) { ActedValid(f); } else if data != [] { TakenValid(f, data[0]); }
    hide Acted, Taken, Valid;
  }

  lemma TakenGoes(f: Feed, data: Bytes)
    requires FeedValid(f) && f.verdict.Going? && !Full(f.d) && data != [] && Go(f, data).verdict.Going?
    ensures Taken(f, data[0]).verdict.Going?
  {
    TakenValid(f, data[0]);
    hide Taken, Acted, Valid, Full;
  }

  // ---- the longest run of garbage -------------------------------------------------------------------------

  function Max(a: nat, b: nat): nat {
    if a < b then b else a
  }

  // How many bytes have been discarded since the last resynchronisation, once a full buffer has been acted on.
  function RunAfter(d: Demux, run: nat): nat
    requires Valid(d) && Full(d)
  {
    if Confirmed(d) && !d.synced then 0 else run + Act(d).dropped
  }

  // The most bytes discarded between one resynchronisation and the next, run of them so far.
  function Longest(d: Demux, run: nat, data: Bytes): (r: nat)
    requires Valid(d)
    ensures r >= run
    decreases |data|, |d.buf|
  {
    if Full(d) then
      ActValid(d);
      Max(run, Longest(Act(d).d, RunAfter(d, run), data))
    else if data == [] then run
    else
      AppendValid(d, data[0]);
      Longest(Append(d, data[0]), if Stray(d, data[0]) then run + 1 else run, data[1..])
  }

  /** A feed that no callback stops returns 0 if and only if no run of discarded bytes exceeds the budget. */
  lemma {:induction false} GoesIffShort(f: Feed, data: Bytes)
    requires FeedValid(f) && f.verdict.Going? && f.answers == []
    requires f.junk <= RESYNC_MAX && (f.d.synced ==> f.junk == 0)
    ensures Go(f, data).verdict.Going? <==> Longest(f.d, f.junk, data) <= RESYNC_MAX
    decreases |data|, |f.d.buf|
  {
    if Full(f.d) {
      ActedValid(f);
      ActValid(f.d);
      ActedJunk(f);
      ActedGoes(f);
      if Acted(f).verdict.Going? {
        ActedTurn(f);
        hide Act, Acted, RunAfter;
        GoesIffShort(Acted(f), data);
      }
    } else if data != [] {
      TakenValid(f, data[0]);
      AppendValid(f.d, data[0]);
      if Taken(f, data[0]).verdict.Going? { GoesIffShort(Taken(f, data[0]), data[1..]); }
    }
  }

  lemma ActedGoes(f: Feed)
    requires FeedValid(f) && Full(f.d) && f.verdict.Going? && f.answers == []
    requires f.junk <= RESYNC_MAX && (f.d.synced ==> f.junk == 0)
    ensures Acted(f).verdict.Going? <==> RunAfter(f.d, f.junk) <= RESYNC_MAX
    ensures Acted(f).verdict.Going? ==> Acted(f).junk == RunAfter(f.d, f.junk) && Acted(f).answers == []
  {
    hide Process, HeaderOk;
  }

  // A head start only lengthens the run, by no more than itself.
  lemma {:induction false} LongestGrows(d: Demux, run: nat, more: nat, data: Bytes)
    requires Valid(d) && run <= more
    ensures Longest(d, run, data) <= Longest(d, more, data)
    decreases |data|, |d.buf|
  {
    if Full(d) {
      ActValid(d);
      hide Act;
      LongestGrows(Act(d).d, RunAfter(d, run), RunAfter(d, more), data);
    } else if data != [] {
      AppendValid(d, data[0]);
      var k := if Stray(d, data[0]) then 1 else 0;
      LongestGrows(Append(d, data[0]), run + k, more + k, data[1..]);
    }
  }

  // Each piece of the data has no longer runs than the whole, even with the count started anew.
  lemma {:induction false} LongestSplits(d: Demux, run: nat, a: Bytes, b: Bytes)
    requires Valid(d)
    ensures Longest(d, run, a) <= Longest(d, run, a + b)
    ensures Longest(Free(d, a).d, 0, b) <= Longest(d, run, a + b)
    decreases |a|, |d.buf|
  {
    if Full(d) {
      ActValid(d);
      hide Act, RunAfter;
      LongestSplits(Act(d).d, RunAfter(d, run), a, b);
    } else if a == [] {
      assert [] + b == b;
      LongestGrows(d, 0, run, b);
    } else {
      AppendValid(d, a[0]);
      assert (a + b)[1..] == a[1..] + b;
      hide Append, Stray;
      LongestSplits(Append(d, a[0]), if Stray(d, a[0]) then run + 1 else run, a[1..], b);
    }
  }

  // No run is longer than all that is discarded, and that is no more than there is.
  lemma {:induction false} LongestAtMost(d: Demux, run: nat, data: Bytes)
    requires Valid(d)
    ensures Longest(d, run, data) <= run + Free(d, data).dropped
    ensures Free(d, data).dropped <= |d.buf| + |data|
    decreases |data|, |d.buf|
  {
    if Full(d) {
      ActValid(d);
      DroppedFrom(d);
      hide Act;
      LongestAtMost(Act(d).d, RunAfter(d, run), data);
    } else if data != [] {
      AppendValid(d, data[0]);
      LongestAtMost(Append(d, data[0]), if Stray(d, data[0]) then run + 1 else run, data[1..]);
    }
  }

  lemma DroppedFrom(d: Demux)
    requires Valid(d) && Full(d)
    ensures Act(d).dropped + |Act(d).d.buf| <= |d.buf|
  {
    hide Process, HeaderOk;
  }

  // ---- many feeds -----------------------------------------------------------------------------------------

  // A series of ts_demux_feed calls whose callback never stops: what they hand out, and whether all
  // return 0.
  datatype Series = Series(d: Demux, outs: seq<Bytes>, ok: bool)

  function Feeds(d: Demux, chunks: seq<Bytes>): Series
    requires Valid(d)
    decreases |chunks|
  {
    if chunks == [] then Series(d, [], true)
    else
      var f := Go(Begin(d, []), chunks[0]);
      var rest := Feeds(f.d, chunks[1..]);
      Series(rest.d, f.outs + rest.outs, f.verdict.Going? && rest.ok)
  }

  lemma {:induction false} FeedsAreFree(d: Demux, chunks: seq<Bytes>)
    requires Valid(d) && chunks != [] && Feeds(d, chunks).ok
    ensures Feeds(d, chunks).d == Free(d, Flatten(chunks)).d
    ensures Feeds(d, chunks).outs == Free(d, Flatten(chunks)).outs
    decreases |chunks|
  {
    hide Go, Free;
    var f := Go(Begin(d, []), chunks[0]);
    GoIsFree(Begin(d, []), chunks[0]);
    assert f.outs == [] + Free(d, chunks[0]).outs;
    if |chunks| > 1 {
      FeedsAreFree(f.d, chunks[1..]);
      FreeJoins(d, chunks[0], Flatten(chunks[1..]));
    } else {
      assert chunks[1..] == [] && chunks[0] + [] == chunks[0];
      assert Feeds(f.d, []) == Series(f.d, [], true);
    }
  }

  /** Chunking independence: however a byte stream is cut into feeds, as long as no feed gives up or is
      stopped, the callback gets the same bytes in the same pieces, and the demuxer - stream type and
      counter errors included - ends in the same state. */
  lemma ChunkingIrrelevant(d: Demux, chunks: seq<Bytes>, other: seq<Bytes>)
    requires Valid(d) && chunks != [] && other != [] && Flatten(chunks) == Flatten(other)
    requires Feeds(d, chunks).ok && Feeds(d, other).ok
    ensures Feeds(d, chunks) == Feeds(d, other)
  {
    FeedsAreFree(d, chunks);
    FeedsAreFree(d, other);
  }

  /** However the stream is cut, no feed gives up where no run of discarded bytes in it exceeds the budget. */
  lemma {:induction false} FeedsSucceed(d: Demux, chunks: seq<Bytes>)
    requires Valid(d) && Longest(d, 0, Flatten(chunks)) <= 65536
    ensures Feeds(d, chunks).ok
    decreases |chunks|
  {
    hide Go, Free, Longest;
    if chunks != [] {
      var f := Go(Begin(d, []), chunks[0]);
      LongestSplits(d, 0, chunks[0], Flatten(chunks[1..]));
      GoesIffShort(Begin(d, []), chunks[0]);
      GoIsFree(Begin(d, []), chunks[0]);
      FeedsSucceed(f.d, chunks[1..]);
    }
  }

  lemma OneFeed(d: Demux, data: Bytes)
    requires Valid(d)
    ensures Flatten([data]) == data && Feeds(d, [data]).ok == Go(Begin(d, []), data).verdict.Going?
  {
    hide Go;
    var chunks: seq<Bytes> := [data];
    assert chunks[1..] == [] && data + [] == data;
  }

  /** Every cutting of a stream is taken without a feed giving up if and only if the stream in one feed is. */
  lemma NoneFailsIffWholeGoes(d: Demux, data: Bytes)
    requires Valid(d)
    ensures (forall chunks | Flatten(chunks) == data :: Feeds(d, chunks).ok) <==> Go(Begin(d, []), data).verdict.Going?
    ensures Go(Begin(d, []), data).verdict.Going? <==> Longest(d, 0, data) <= 65536
  {
    hide Go, Longest, Feeds;
    GoesIffShort(Begin(d, []), data);
    OneFeed(d, data);
    if Longest(d, 0, data) <= RESYNC_MAX {
      forall chunks | Flatten(chunks) == data ensures Feeds(d, chunks).ok { FeedsSucceed(d, chunks); }
    }
  }

  // The stream a byte at a time.
  function Singles(data: Bytes): (r: seq<Bytes>)
    ensures Flatten(r) == data
  {
    if data == [] then [] else
      assert [data[0]] + data[1..] == data;
      var r := [[data[0]]] + Singles(data[1..]);
      assert r[1..] == Singles(data[1..]);
      r
  }

  // Too little for any budget.
  lemma {:induction false} SinglesSucceed(d: Demux, data: Bytes)
    requires Valid(d)
    ensures Feeds(d, Singles(data)).ok
    decreases |data|
  {
    if data != [] {
      var b := [data[0]];
      LongestAtMost(d, 0, b);
      GoesIffShort(Begin(d, []), b);
      hide Go, Free, Longest;
      assert Singles(data) == [b] + Singles(data[1..]) && ([b] + Singles(data[1..]))[1..] == Singles(data[1..]);
      SinglesSucceed(Go(Begin(d, []), b).d, data[1..]);
    }
  }

  /** The exact condition on the bytes: all cuttings of a stream agree - on the output, the state, and whether
      some call gives up - if and only if no run of discarded bytes in it exceeds the budget of one call. */
  lemma ChunkingIrrelevantIff(d: Demux, data: Bytes)
    requires Valid(d)
    ensures Longest(d, 0, data) <= 65536 <==>
      forall chunks, other | chunks != [] && other != [] && Flatten(chunks) == data && Flatten(other) == data ::
        Feeds(d, chunks) == Feeds(d, other)
  {
    hide Go, Longest, Feeds;
    if Longest(d, 0, data) <= RESYNC_MAX {
      forall chunks, other | chunks != [] && other != [] && Flatten(chunks) == data && Flatten(other) == data
        ensures Feeds(d, chunks) == Feeds(d, other)
      {
        FeedsSucceed(d, chunks);
        FeedsSucceed(d, other);
        ChunkingIrrelevant(d, chunks, other);
      }
    } else {
      GoesIffShort(Begin(d, []), data);
      OneFeed(d, data);
      SinglesSucceed(d, data);
      SinglesNonempty(d, data);
      assert Feeds(d, [data]) != Feeds(d, Singles(data));
    }
  }

  lemma SinglesNonempty(d: Demux, data: Bytes)
    requires Valid(d) && Longest(d, 0, data) > 65536
    ensures Singles(data) != []
  {
    LongestAtMost(d, 0, data);
  }

  // Where no packet can start, a feed only counts.
  lemma {:induction false} GoStrays(f: Feed, data: Bytes)
    requires FeedValid(f) && f.verdict.Going? && !f.d.synced && f.d.buf == [] && f.junk <= RESYNC_MAX
    requires SYNC !in data
    ensures Go(f, data) ==
      if f.junk + |data| <= RESYNC_MAX then f.(junk := f.junk + |data|)
      else f.(d := DemuxReset(f.d), junk := 0, verdict := Garbage)
    decreases |data|
  {
    if data != [] && f.junk < RESYNC_MAX {
      GoStrays(Taken(f, data[0]), data[1..]);
    }
  }

  /** The budget is each feed's own, so without the hypothesis that none gives up the cutting does
      matter: one byte too many for a single feed is fine in two. */
  lemma CuttingMattersForGarbage(junk: Bytes, b: byte)
    requires |junk| == 65536 && SYNC !in junk + [b]
    ensures Flatten([junk + [b]]) == Flatten([junk, [b]])
    ensures !Feeds(NEW_DEMUX, [junk + [b]]).ok
    ensures Feeds(NEW_DEMUX, [junk, [b]]).ok
  {
    hide Go;
    var whole := junk + [b];
    var one: seq<Bytes>, two: seq<Bytes> := [whole], [junk, [b]];
    assert one[1..] == [] && two[1..] == [[b]] && two[1..][1..] == [];
    GoStrays(Begin(NEW_DEMUX, []), whole);
    assert SYNC !in junk by { assert forall i | 0 <= i < |junk| :: junk[i] == whole[i]; }
    GoStrays(Begin(NEW_DEMUX, []), junk);
    assert b == whole[|junk|];
    GoStrays(Begin(NEW_DEMUX, []), [b]);
  }
}
