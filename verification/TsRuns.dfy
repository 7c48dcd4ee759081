/** src/ts_demux.c: any feeds of bytes come down to a run of packets and resets, the packets being disjoint
    slices of the stream, so what TsUnits says of runs it says of bytes. */
module TsRuns {
  import opened Prelude
  import opened TsPacket
  import opened TsUnits
  import opened TsFrame

  // What a feed puts through process_pkt, and its reset, if it ends in one.
  function Events(f: Feed, data: Bytes): seq<Event>
    requires FeedValid(f)
    decreases |data|, |f.d.buf|
  {
    if !f.verdict.Going? then []
    else if Full(f.d) then
      ActedValid(f);
      EventsOf(f) + Events(Acted(f), data)
    else if data == [] then []
    else
      TakenValid(f, data[0]);
      (if Taken(f, data[0]).verdict.Garbage? then [Reset] else []) + Events(Taken(f, data[0]), data[1..])
  }

  // How many bytes of data a feed takes before it ends.
  function Took(f: Feed, data: Bytes): (r: nat)
    requires FeedValid(f)
    ensures r <= |data|
    ensures Go(f, data).verdict.Going? ==> r == |data|
    decreases |data|, |f.d.buf|
  {
    if !f.verdict.Going? then 0
    else if Full(f.d) then
      ActedValid(f);
      Took(Acted(f), data)
    else if data == [] then 0
    else
      TakenValid(f, data[0]);
      1 + Took(Taken(f, data[0]), data[1..])
  }

  function EventsOf(f: Feed): seq<Event>
    requires FeedValid(f) && Full(f.d)
  {
    if Confirmed(f.d) then [Arrive(f.d.buf[..PKT])]
    else if Acted(f).verdict.Garbage? then [Reset]
    else []
  }

  // What a run hands out.
  function Handed(c: Core, events: seq<Event>): seq<Bytes>
    requires CoreValid(c)
    decreases |events|
  {
    if events == [] then []
    else
      match events[0]
      case Arrive(p) =>
        ProcessValid(c, p);
        (if Process(c, p).1.Some? then [Process(c, p).1.value] else []) + Handed(Process(c, p).0, events[1..])
      case Reset => Handed(CoreReset(c), events[1..])
  }

  predicate SliceAt(stream: Bytes, at: nat, p: Packet) {
    at + PKT <= |stream| && stream[at..at + PKT] == p
  }

  predicate EndAt(stream: Bytes, at: nat, rest: Bytes) {
    at <= |stream| && stream[at..] == rest
  }

  // The packets that arrive are disjoint slices of the stream, in order, and rest is the end of what is
  // left behind them.
  ghost predicate Sliced(events: seq<Event>, stream: Bytes, rest: Bytes)
    decreases |events|
  {
    if events == [] then exists at: nat :: EndAt(stream, at, rest)
    else
      match events[0]
      case Arrive(p) =>
        exists at: nat :: SliceAt(stream, at, p) && Sliced(events[1..], stream[at + PKT..], rest)
      case Reset => Sliced(events[1..], stream, rest)
  }

  // ---- runs and slices end to end -----------------------------------------------------------------------

  lemma {:induction false} RunJoins(c: Core, t: Option<Trail>, a: seq<Event>, b: seq<Event>)
    requires CoreValid(c)
    ensures var (c', t') := Run(c, t, a); Run(c, t, a + b) == Run(c', t', b) && Handed(c, a + b) == Handed(c, a) + Handed(c', b)
    decreases |a|
  {
    hide Process, NextTrail;
    if a == [] {
      assert [] + b == b;
    } else {
      assert (a + b)[1..] == a[1..] + b;
      match a[0]
      case Arrive(p) =>
        ProcessValid(c, p);
        RunJoins(Process(c, p).0, NextTrail(c, t, p), a[1..], b);
      case Reset => RunJoins(CoreReset(c), None, a[1..], b);
    }
  }

  // More of the stream in front, or behind.
  lemma {:induction false} SlicedWithin(events: seq<Event>, front: Bytes, stream: Bytes, rest: Bytes)
    requires Sliced(events, stream, rest)
    ensures Sliced(events, front + stream, rest)
    decreases |events|
  {
    if events == [] {
      var at: nat :| EndAt(stream, at, rest);
      assert EndAt(front + stream, |front| + at, rest);
    } else {
      match events[0]
      case Arrive(p) =>
        var at: nat :| SliceAt(stream, at, p) && Sliced(events[1..], stream[at + PKT..], rest);
        assert (front + stream)[|front| + at + PKT..] == stream[at + PKT..];
        assert SliceAt(front + stream, |front| + at, p);
      case Reset => SlicedWithin(events[1..], front, stream, rest);
    }
  }

  lemma {:induction false} SlicedJoins(a: seq<Event>, stream: Bytes, rest: Bytes, b: seq<Event>, more: Bytes, end: Bytes)
    requires Sliced(a, stream, rest) && Sliced(b, rest + more, end)
    ensures Sliced(a + b, stream + more, end)
    decreases |a|
  {
    if a == [] {
      var at: nat :| EndAt(stream, at, rest);
      assert [] + b == b && stream[..at] + (rest + more) == stream + more;
      SlicedWithin(b, stream[..at], rest + more, end);
    } else {
      assert (a + b)[1..] == a[1..] + b;
      match a[0]
      case Arrive(p) =>
        var at: nat :| SliceAt(stream, at, p) && Sliced(a[1..], stream[at + PKT..], rest);
        SlicedJoins(a[1..], stream[at + PKT..], rest, b, more, end);
        assert (stream + more)[at + PKT..] == stream[at + PKT..] + more;
        assert SliceAt(stream + more, at, p);
      case Reset => SlicedJoins(a[1..], stream, rest, b, more, end);
    }
  }

  // ---- one feed -------------------------------------------------------------------------------------------

  lemma ActedRuns(f: Feed, t: Option<Trail>)
    requires FeedValid(f) && f.verdict.Going? && Full(f.d)
    ensures Acted(f).d.core == Run(f.d.core, t, EventsOf(f)).0
    ensures Acted(f).outs == f.outs + Handed(f.d.core, EventsOf(f))
  {
    ProcessValid(f.d.core, f.d.buf[..PKT]);
    hide Process, HeaderOk, NextTrail, NextSync;
    var events := EventsOf(f);
    assert events != [] ==> events[1..] == [];
  }

  lemma ActedSliced(f: Feed)
    requires FeedValid(f) && Full(f.d)
    ensures Sliced(EventsOf(f), f.d.buf, Acted(f).d.buf)
  {
    ActedRest(f);
    hide Acted, Confirmed, Valid;
    var buf, rest, events := f.d.buf, Acted(f).d.buf, EventsOf(f);
    assert EndAt(buf, |buf| - |rest|, rest);
    if Confirmed(f.d) {
      assert events[0] == Arrive(buf[..PKT]) && events[1..] == [];
      assert SliceAt(buf, 0, buf[..PKT]) && EndAt(buf[PKT..], 0, rest);
    } else if events != [] {
      assert events[1..] == [];
    }
  }

  lemma ActedRest(f: Feed)
    requires FeedValid(f) && Full(f.d)
    ensures |Acted(f).d.buf| <= |f.d.buf| && Acted(f).d.buf == f.d.buf[|f.d.buf| - |Acted(f).d.buf|..]
    ensures Confirmed(f.d) ==> Acted(f).d.buf == f.d.buf[PKT..]
  {
    hide Process, HeaderOk;
  }

  lemma TakenRuns(f: Feed, t: Option<Trail>, b: byte)
    requires FeedValid(f) && f.verdict.Going? && !Full(f.d)
    ensures var events := if Taken(f, b).verdict.Garbage? then [Reset] else [];
      && Taken(f, b).d.core == Run(f.d.core, t, events).0 && Handed(f.d.core, events) == [] && Taken(f, b).outs == f.outs
      && Sliced(events, f.d.buf + [b], Taken(f, b).d.buf)
  {
    var next := Taken(f, b);
    TakenSliced(f, b);
    hide Process, NextTrail, Sliced, Full;
    if next.verdict.Garbage? {
      assert [Reset][1..] == [];
      assert Handed(CoreReset(f.d.core), []) == [];
    }
  }

  lemma TakenSliced(f: Feed, b: byte)
    requires FeedValid(f) && f.verdict.Going? && !Full(f.d)
    ensures Sliced(if Taken(f, b).verdict.Garbage? then [Reset] else [], f.d.buf + [b], Taken(f, b).d.buf)
  {
    var stream, next := f.d.buf + [b], Taken(f, b);
    assert stream[|stream| - |next.d.buf|..] == next.d.buf;
    hide Taken, Full, Valid;
    assert EndAt(stream, |stream| - |next.d.buf|, next.d.buf);
    assert [Reset][1..] == [];
  }

  /** A feed, however it ends, does what a run of packets and resets does, and the packets are disjoint
      slices of what was held and what the feed takes. */
  lemma {:induction false} GoRuns(f: Feed, t: Option<Trail>, data: Bytes)
    requires FeedValid(f)
    ensures Go(f, data).d.core == Run(f.d.core, t, Events(f, data)).0
    ensures Go(f, data).outs == f.outs + Handed(f.d.core, Events(f, data))
    ensures Sliced(Events(f, data), f.d.buf + data[..Took(f, data)], Go(f, data).d.buf)
    decreases |data|, |f.d.buf|
  {
    hide *;
    if !f.verdict.Going? || (!Full(f.d) && data == []) {
      GoRests(f, t, data);
    } else if Full(f.d) {
      GoUnfolds(f, data);
      EventsUnfold(f, data);
      GoRuns(Acted(f), Run(f.d.core, t, EventsOf(f)).1, data);
      ActedRuns(f, t);
      ActedSliced(f);
      Onward(f, t, EventsOf(f), f.d.buf, Acted(f), Events(Acted(f), data), data[..Took(f, data)], Go(f, data));
    } else {
      GoUnfolds(f, data);
      EventsUnfold(f, data);
      TakenRuns(f, t, data[0]);
      var next, n := Taken(f, data[0]), Took(f, data);
      var events := if next.verdict.Garbage? then [Reset] else [];
      GoRuns(next, Run(f.d.core, t, events).1, data[1..]);
      assert f.outs + [] == f.outs;
      Onward(f, t, events, f.d.buf + [data[0]], next, Events(next, data[1..]), data[1..][..n - 1], Go(f, data));
      assert f.d.buf + [data[0]] + data[1..][..n - 1] == f.d.buf + data[..n];
    }
  }

  lemma GoRests(f: Feed, t: Option<Trail>, data: Bytes)
    requires FeedValid(f) && (!f.verdict.Going? || (!Full(f.d) && data == []))
    ensures Go(f, data) == f && Events(f, data) == [] && Run(f.d.core, t, []).0 == f.d.core
    ensures Handed(f.d.core, []) == [] && f.outs + [] == f.outs
    ensures Sliced([], f.d.buf + data[..Took(f, data)], f.d.buf)
  {
    assert f.d.buf + [] == f.d.buf && EndAt(f.d.buf, 0, f.d.buf);
  }

  lemma EventsUnfold(f: Feed, data: Bytes)
    requires FeedValid(f) && f.verdict.Going?
    ensures CoreValid(f.d.core) && Valid(f.d)
    ensures Full(f.d) ==> FeedValid(Acted(f)) && |Acted(f).d.buf| < |f.d.buf| && CoreValid(Acted(f).d.core)
    ensures Full(f.d) ==>
      Events(f, data) == EventsOf(f) + Events(Acted(f), data) && Took(f, data) == Took(Acted(f), data)
    ensures !Full(f.d) && data != [] ==> FeedValid(Taken(f, data[0])) && CoreValid(Taken(f, data[0]).d.core)
    ensures !Full(f.d) && data != [] ==>
      var next := Taken(f, data[0]);
      && Events(f, data) == (if next.verdict.Garbage? then [Reset] else []) + Events(next, data[1..])
      && Took(f, data) == 1 + Took(next, data[1..])
  {
    if Full(f.d) { ActedValid(f); } else if data != [] { TakenValid(f, data[0]); }
    hide Acted, Taken, EventsOf, Valid;
  }

  // A first step, from f to mid, and the rest of the feed.
  lemma Onward(f: Feed, t: Option<Trail>, first: seq<Event>, stream: Bytes, mid: Feed, later: seq<Event>, more: Bytes, end: Feed)
    requires FeedValid(f) && FeedValid(mid)
    requires mid.d.core == Run(f.d.core, t, first).0 && mid.outs == f.outs + Handed(f.d.core, first)
    requires Sliced(first, stream, mid.d.buf)
    requires end.d.core == Run(mid.d.core, Run(f.d.core, t, first).1, later).0
    requires end.outs == mid.outs + Handed(mid.d.core, later) && Sliced(later, mid.d.buf + more, end.d.buf)
    ensures end.d.core == Run(f.d.core, t, first + later).0 && end.outs == f.outs + Handed(f.d.core, first + later)
    ensures Sliced(first + later, stream + more, end.d.buf)
  {
    RunJoins(f.d.core, t, first, later);
    SlicedJoins(first, stream, mid.d.buf, later, more, end.d.buf);
    Associates(f.outs, Handed(f.d.core, first), Handed(mid.d.core, later));
    hide Run, Handed, Sliced;
  }

  // ---- many feeds -----------------------------------------------------------------------------------------

  // What a series of feeds puts through process_pkt.
  function AllEvents(d: Demux, chunks: seq<Bytes>): seq<Event>
    requires Valid(d)
    decreases |chunks|
  {
    if chunks == [] then []
    else
      var f := Begin(d, []);
      Events(f, chunks[0]) + AllEvents(Go(f, chunks[0]).d, chunks[1..])
  }

  // A feed that gives up keeps nothing.
  lemma {:induction false} GarbageKeepsNothing(f: Feed, data: Bytes)
    requires FeedValid(f) && f.verdict.Going? && f.answers == [] && !Go(f, data).verdict.Going?
    ensures Go(f, data).d.buf == []
    decreases |data|, |f.d.buf|
  {
    if Full(f.d) {
      ActedValid(f);
      ActedAnswers(f);
      hide Acted;
      if Acted(f).verdict.Going? { GarbageKeepsNothing(Acted(f), data); }
    } else if data != [] {
      TakenValid(f, data[0]);
      if Taken(f, data[0]).verdict.Going? { GarbageKeepsNothing(Taken(f, data[0]), data[1..]); }
    }
  }

  lemma ActedAnswers(f: Feed)
    requires FeedValid(f) && Full(f.d) && f.verdict.Going? && f.answers == []
    ensures Acted(f).answers == [] && (!Acted(f).verdict.Going? ==> Acted(f).d.buf == [])
  {
    hide Process, HeaderOk;
  }

  // What a feed did not take can be counted in, if nothing of the stream is kept.
  lemma SlicedAll(f: Feed, data: Bytes)
    requires FeedValid(f) && f.verdict.Going? && f.answers == []
    requires Sliced(Events(f, data), f.d.buf + data[..Took(f, data)], Go(f, data).d.buf)
    ensures Sliced(Events(f, data), f.d.buf + data, Go(f, data).d.buf)
  {
    hide *;
    var n, events := Took(f, data), Events(f, data);
    if Go(f, data).verdict.Going? {
      assert data[..n] == data;
    } else {
      GarbageKeepsNothing(f, data);
      SlicedBehind(events, f.d.buf + data[..n], data[n..]);
      assert f.d.buf + data[..n] + data[n..] == f.d.buf + data;
    }
  }

  lemma SlicedBehind(events: seq<Event>, stream: Bytes, more: Bytes)
    requires Sliced(events, stream, [])
    ensures Sliced(events, stream + more, [])
  {
    assert EndAt([] + more, |more|, []);
    SlicedJoins(events, stream, [], [], more, []);
    assert events + [] == events;
  }

  /** Any series of feeds, whether or not some give up, does to the demuxer and hands out just what a run of
      packets and resets does, and the packets are disjoint slices of the bytes held and fed, in order. */
  lemma {:induction false} FeedsAreRuns(d: Demux, t: Option<Trail>, chunks: seq<Bytes>)
    requires Valid(d)
    ensures Feeds(d, chunks).d.core == Run(d.core, t, AllEvents(d, chunks)).0
    ensures Feeds(d, chunks).outs == Handed(d.core, AllEvents(d, chunks))
    ensures Sliced(AllEvents(d, chunks), d.buf + Flatten(chunks), Feeds(d, chunks).d.buf)
    decreases |chunks|
  {
    hide *;
    FeedsUnfold(d, t, chunks);
    if chunks != [] {
      var f, data, later := Begin(d, []), chunks[0], chunks[1..];
      var g := Go(f, data);
      GoRuns(f, t, data);
      SlicedAll(f, data);
      FeedsAreRuns(g.d, Run(d.core, t, Events(f, data)).1, later);
      assert g.outs == Handed(d.core, Events(f, data)) by { assert [] + Handed(d.core, Events(f, data)) == Handed(d.core, Events(f, data)); }
      RunJoins(d.core, t, Events(f, data), AllEvents(g.d, later));
      SlicedJoins(Events(f, data), d.buf + data, g.d.buf, AllEvents(g.d, later), Flatten(later), Feeds(g.d, later).d.buf);
      Associates(d.buf, data, Flatten(later));
    }
  }

  lemma FeedsUnfold(d: Demux, t: Option<Trail>, chunks: seq<Bytes>)
    requires Valid(d)
    ensures CoreValid(d.core) && FeedValid(Begin(d, [])) && Begin(d, []) == Feed(d, 0, [], Going, [])
    ensures chunks == [] ==>
      && Feeds(d, chunks) == Series(d, [], true) && AllEvents(d, chunks) == [] && Run(d.core, t, []).0 == d.core
      && Handed(d.core, []) == [] && Sliced([], d.buf + Flatten(chunks), d.buf)
    ensures chunks != [] ==>
      var g := Go(Begin(d, []), chunks[0]);
      && Valid(g.d) && CoreValid(g.d.core)
      && Feeds(d, chunks).d == Feeds(g.d, chunks[1..]).d && Feeds(d, chunks).outs == g.outs + Feeds(g.d, chunks[1..]).outs
      && AllEvents(d, chunks) == Events(Begin(d, []), chunks[0]) + AllEvents(g.d, chunks[1..])
      && Flatten(chunks) == chunks[0] + Flatten(chunks[1..])
  {
    if chunks == [] { assert d.buf + [] == d.buf && EndAt(d.buf, 0, d.buf); }
    hide Go, Events;
  }

  // Packets that arrived one after the other, at these places of a run, with no reset since the first.
  ghost predicate Standing(links: seq<Packet>, at: seq<nat>, events: seq<Event>) {
    && |at| == |links|
    && (forall k | 0 <= k < |at| :: at[k] < |events| && events[at[k]] == Arrive(links[k]))
    && (forall j, k | 0 <= j < k < |at| :: at[j] < at[k])
    && (forall k, j | 0 <= k < |at| && at[k] <= j < |events| :: events[j].Arrive?)
  }

  lemma StandsOn(links: seq<Packet>, at: seq<nat>, events: seq<Event>, p: Packet)
    requires Standing(links, at, events)
    ensures Standing(links, at, events + [Arrive(p)])
    ensures Standing(links + [p], at + [|events|], events + [Arrive(p)])
  {}

  lemma StandsAlone(events: seq<Event>, p: Packet)
    ensures Standing([p], [|events|], events + [Arrive(p)])
  {}

  // The packets a unit is traced back to are ones that arrived, in that order.
  ghost predicate From(t: Option<Trail>, events: seq<Event>) {
    t.Some? ==> exists at :: Standing(t.value.links, at, events)
  }

  lemma {:induction false} LinksArrived(c: Core, t: Option<Trail>, before: seq<Event>, events: seq<Event>)
    requires CoreValid(c) && From(t, before)
    ensures From(Run(c, t, events).1, before + events)
    decreases |events|
  {
    if events == [] {
      assert before + [] == before;
    } else {
      var e := events[0];
      assert before + [e] + events[1..] == before + events;
      match e
      case Arrive(p) =>
        ProcessValid(c, p);
        NextArrived(c, t, p, before);
        hide Process, NextTrail, From;
        LinksArrived(Process(c, p).0, NextTrail(c, t, p), before + [e], events[1..]);
      case Reset =>
        hide From;
        NoneFrom(before + [e]);
        LinksArrived(CoreReset(c), None, before + [e], events[1..]);
    }
  }

  lemma NoneFrom(events: seq<Event>)
    ensures From(None, events)
  {}

  // What a packet does to the trail: nothing, an end, a new one, or one more link.
  lemma NextLinks(c: Core, t: Option<Trail>, p: Packet)
    requires CoreValid(c)
    ensures var t' := NextTrail(c, t, p);
      t' == t || t'.None? || t'.value.links == [p] || (t.Some? && t'.value.links == t.value.links + [p])
  {
    hide Process, Ignored, Duplicate, Gap, ForSections, UnitStart, Payload, PidOf;
  }

  lemma NextArrived(c: Core, t: Option<Trail>, p: Packet, events: seq<Event>)
    requires CoreValid(c) && From(t, events)
    ensures From(NextTrail(c, t, p), events + [Arrive(p)])
  {
    hide Standing, NextTrail;
    NextLinks(c, t, p);
    StandsAlone(events, p);
    if t.Some? {
      var at :| Standing(t.value.links, at, events);
      StandsOn(t.value.links, at, events, p);
    }
  }

  // A packet that hands something out is the last link of its trail, at its own place.
  lemma OutputStands(c: Core, t: Option<Trail>, p: Packet, events: seq<Event>) returns (at: seq<nat>)
    requires CoreValid(c) && From(t, events) && Process(c, p).1.Some? && NextTrail(c, t, p).Some?
    ensures at != [] && at[|at| - 1] == |events|
    ensures Standing(NextTrail(c, t, p).value.links, at, events + [Arrive(p)])
  {
    hide Standing, NextTrail, Process, UnitStart, Ignored, Duplicate, ForSections, PidOf, PayloadAt, Payload, Gap;
    OutputIs(c, p);
    PayloadNonempty(p);
    var last: nat := |events|;
    if UnitStart(p) {
      TrailBegins(c, t, p);
      StandsAlone(events, p);
      at := [last];
    } else {
      TrailContinues(c, t, p);
      var before :| Standing(t.value.links, before, events);
      StandsOn(t.value.links, before, events, p);
      at := before + [last];
    }
  }

  /** What no splicing means for bytes: of the packets a series of feeds to a new demuxer comes down to,
      slices of the stream all of them, whichever hands something out ends a chain of such packets of the
      audio PID, one after the other and no reset between them, that begins a unit and misses no counter. */
  lemma FeedsSpliceNothing(chunks: seq<Bytes>, i: nat)
    requires i < |AllEvents(NEW_DEMUX, chunks)| && AllEvents(NEW_DEMUX, chunks)[i].Arrive?
    ensures var events := AllEvents(NEW_DEMUX, chunks);
      var p, (c, t) := events[i].p, Run(NEW_CORE, None, events[..i]);
      && Sliced(events, Flatten(chunks), Feeds(NEW_DEMUX, chunks).d.buf)
      && Feeds(NEW_DEMUX, chunks).outs == Handed(NEW_CORE, events)
      && (Process(c, p).1.Some? ==>
            var t' := NextTrail(c, t, p);
            && t'.Some? && t'.value.links[|t'.value.links| - 1..] == [p] && Linked(t'.value.links, c.audPid)
            && exists at :: Standing(t'.value.links, at, events[..i + 1]) && at != [] && at[|at| - 1] == i)
  {
    hide *;
    NewHoldsNothing(Flatten(chunks));
    FeedsAreRuns(NEW_DEMUX, None, chunks);
    var events := AllEvents(NEW_DEMUX, chunks);
    NothingSpliced(events[..i], events[i].p);
    NoneFrom([]);
    LinksArrived(NEW_CORE, None, [], events[..i]);
    assert [] + events[..i] == events[..i] && events[..i] + [events[i]] == events[..i + 1];
    var p := events[i].p;
    var (c, t) := Run(NEW_CORE, None, events[..i]);
    if Process(c, p).1.Some? {
      var at := OutputStands(c, t, p, events[..i]);
    }
  }

  lemma NewHoldsNothing(stream: Bytes)
    ensures Valid(NEW_DEMUX) && NEW_DEMUX.buf + stream == stream && NEW_DEMUX.core == NEW_CORE && CoreValid(NEW_CORE)
  {}

  lemma Associates<T>(a: seq<T>, b: seq<T>, c: seq<T>)
    ensures a + b + c == a + (b + c)
  {}
}
