/** src/ts_demux.c: where every elementary byte comes from. A PES unit is followed packet by packet
    through the audio PID's continuity counters, in any run of packets and resets. */
module TsUnits {
  import opened Prelude
  import opened TsPacket

  // ---- a PES unit as a whole ----------------------------------------------------------------------

  // The elementary bytes of the first bytes of a PES unit: what follows the fixed and the optional
  // header, once both are complete.
  function Es(unit: Bytes): Bytes {
    if |unit| < 9 || !AudioHeader(unit) || |unit| < 9 + unit[8] as int then []
    else unit[9 + unit[8] as int..]
  }

  // Where pes_feed stands after the first bytes of a unit.
  function PesOf(unit: Bytes): (r: Pes)
    ensures r.Header? ==> |r.got| < 9
  {
    if |unit| < 9 then Header(unit)
    else if !AudioHeader(unit) then Idle
    else if |unit| == 9 then Skip(unit[8] as int)
    else if |unit| < 9 + unit[8] as int then Skip(9 + unit[8] as int - |unit|)
    else Data
  }

  // Past the headers, everything goes out.
  lemma PesRunSkip(left: nat, p: Bytes)
    requires p != []
    ensures PesRun(Skip(left), p) ==
      if |p| < left then (Skip(left - |p|), None)
      else (Data, if |p| == left then None else Some(p[left..]))
  {}

  lemma HeaderFilled(unit: Bytes, p: Bytes)
    requires |unit| < 9 <= |unit + p|
    ensures var h := unit + p[..9 - |unit|];
      |h| == 9 && h[8] == (unit + p)[8] && AudioHeader(h) == AudioHeader(unit + p)
  {
    assert unit + p[..9 - |unit|] == (unit + p)[..9];
  }

  lemma PesRunHeader(unit: Bytes, p: Bytes)
    requires |unit| < 9 && p != []
    ensures PesRun(Header(unit), p) ==
      var h := unit + p;
      if |h| < 9 then (Header(h), None)
      else if !AudioHeader(h) then (Idle, None)
      else PesRun(Skip(h[8] as int), p[9 - |unit|..])
  {
    hide AudioHeader;
    if |unit + p| < 9 {
      assert p[..|p|] == p;
    } else {
      HeaderFilled(unit, p);
    }
  }

  // While the headers are not complete.
  lemma HeaderGrows(unit: Bytes, p: Bytes)
    requires p != [] && |unit| < 9
    ensures PesRun(PesOf(unit), p).0 == PesOf(unit + p)
    ensures Es(unit + p) == (if PesRun(PesOf(unit), p).1.Some? then PesRun(PesOf(unit), p).1.value else [])
  {
    var whole := unit + p;
    PesRunHeader(unit, p);
    if |whole| >= 9 && AudioHeader(whole) {
      var left, q := whole[8] as int, p[9 - |unit|..];
      assert whole[9..] == q;
      if q == [] {
        assert |whole| == 9;
      } else {
        PesRunSkip(left, q);
        if |q| >= left { assert whole[9 + left..] == q[left..]; }
      }
      hide PesRun;
    }
  }

  lemma BodyGrows(unit: Bytes, p: Bytes)
    requires p != [] && |unit| >= 9 && AudioHeader(unit)
    ensures PesRun(PesOf(unit), p).0 == PesOf(unit + p)
    ensures Es(unit + p) == Es(unit) + (if PesRun(PesOf(unit), p).1.Some? then PesRun(PesOf(unit), p).1.value else [])
  {
    var whole := unit + p;
    var left := unit[8] as int;
    assert AudioHeader(whole) && whole[8] == unit[8];
    if |unit| < 9 + left || |unit| == 9 {
      PesRunSkip(9 + left - |unit|, p);
      if |whole| >= 9 + left { assert whole[9 + left..] == p[9 + left - |unit|..]; }
      assert Es(unit) == [];
      hide PesRun;
    } else {
      assert whole[9 + left..] == unit[9 + left..] + p;
    }
  }

  lemma NoEs(unit: Bytes)
    requires |unit| < 9
    ensures Es(unit) == []
  {}

  lemma NotAudio(unit: Bytes, p: Bytes)
    requires |unit| >= 9 && !AudioHeader(unit)
    ensures PesRun(PesOf(unit), p) == (PesOf(unit + p), None) && Es(unit) == [] && Es(unit + p) == []
    ensures Es(unit) + [] == Es(unit)
  {
    assert !AudioHeader(unit + p);
  }

  /** Feeding a unit in any two pieces ends in the same state, and what goes out is exactly what
      the second piece adds to the elementary bytes. */
  lemma UnitGrows(unit: Bytes, p: Bytes)
    requires p != []
    ensures PesRun(PesOf(unit), p).0 == PesOf(unit + p)
    ensures Es(unit + p) == Es(unit) + (if PesRun(PesOf(unit), p).1.Some? then PesRun(PesOf(unit), p).1.value else [])
  {
    hide *;
    if |unit| < 9 {
      HeaderGrows(unit, p);
      NoEs(unit);
      assert Es(unit + p) == [] + Es(unit + p);
    } else if AudioHeader(unit) {
      BodyGrows(unit, p);
    } else {
      NotAudio(unit, p);
    }
  }

  // ---- the trail behind the next elementary byte -------------------------------------------------------

  // The packets accepted on the audio PID since the unit began, and the bytes of theirs that went to
  // pes_feed: all of them (whole), unless the PMT was expected on the same PID for a while.
  datatype Trail = Trail(links: seq<Packet>, fed: Bytes, whole: bool)

  function Payloads(links: seq<Packet>): Bytes {
    if links == [] then [] else Payloads(links[..|links| - 1]) + Payload(links[|links| - 1])
  }

  predicate ForSections(c: Core, p: Packet) {
    PidOf(p) == 0 || PidOf(p) == c.pmtPid
  }

  // The trail after one packet.
  function NextTrail(c: Core, t: Option<Trail>, p: Packet): Option<Trail>
    requires CoreValid(c)
  {
    if Ignored(p) || Duplicate(c, p) then t
    else
      var kept := if Gap(c, p) then None else t;
      if ForSections(c, p) then
        var c' := Process(c, p).0;
        if kept.None? || c'.audPid != c.audPid || c'.pes != c.pes then None
        else if PidOf(p) != c.audPid then kept
        else Some(Trail(kept.value.links + [p], kept.value.fed, kept.value.whole && Payload(p) == []))
      else if PidOf(p) != c.audPid then kept
      else if Payload(p) != [] && UnitStart(p) then Some(Trail([p], Payload(p), true))
      else if kept.None? then None
      else Some(Trail(kept.value.links + [p], kept.value.fed + Payload(p), kept.value.whole))
  }

  // A unit-start packet, then packets of the same PID with consecutive counters.
  ghost predicate Linked(links: seq<Packet>, pid: int) {
    && links != [] && UnitStart(links[0])
    && (forall k | 0 <= k < |links| :: PidOf(links[k]) == pid)
    && (forall j, k | 0 <= j < k < |links| && k == j + 1 ::
          CounterOf(links[k]) == (CounterOf(links[j]) + 1) % 16)
  }

  ghost predicate Followed(c: Core, t: Option<Trail>) {
    && CoreValid(c)
    && match t
       case None => c.pes.Idle?
       case Some(tr) =>
         && 0 <= c.audPid < NPID
         && Linked(tr.links, c.audPid)
         && CounterOf(tr.links[|tr.links| - 1]) == c.cc[c.audPid]
         && c.pes == PesOf(tr.fed)
         && (tr.whole ==> tr.fed == Payloads(tr.links))
  }

  lemma LinkedExtends(links: seq<Packet>, pid: int, p: Packet)
    requires Linked(links, pid) && PidOf(p) == pid
    requires CounterOf(p) == (CounterOf(links[|links| - 1]) + 1) % 16
    ensures Linked(links + [p], pid)
  {
    hide PidOf, CounterOf, UnitStart;
  }

  lemma PayloadsExtend(links: seq<Packet>, p: Packet)
    ensures Payloads(links + [p]) == Payloads(links) + Payload(p)
  {
    hide Payload;
    assert (links + [p])[..|links|] == links;
  }

  // Sections never touch the state of pes_feed, unless they name another audio PID.
  lemma SectionsKeepPes(c: Core, isPat: bool, p: Bytes, start: bool)
    requires CoreValid(c)
    ensures PsiFeed(c, isPat, p, start).audPid == c.audPid && c.pes != PsiFeed(c, isPat, p, start).pes
      ==> PsiFeed(c, isPat, p, start).pes.Idle?
    ensures PsiFeed(c, isPat, p, start).audPid != c.audPid ==> PsiFeed(c, isPat, p, start).pes.Idle?
  {
    hide PsiPush;
    if start && p != [] && p[0] as int <= |p| - 1 {
      var pointer := p[0] as int;
      PushKeepsPes(c, isPat, p[1..1 + pointer]);
      PsiPushValid(c, isPat, p[1..1 + pointer]);
      var c' := if SectionOf(c, isPat).open then PsiPush(c, isPat, p[1..1 + pointer]) else c;
      PushKeepsPes(WithSection(c', isPat, Section(true, [])), isPat, p[1 + pointer..]);
    } else if !start {
      PushKeepsPes(c, isPat, p);
    }
  }

  lemma PushKeepsPes(c: Core, isPat: bool, p: Bytes)
    requires CoreValid(c)
    ensures PsiPush(c, isPat, p).audPid == c.audPid ==> PsiPush(c, isPat, p).pes == c.pes
    ensures PsiPush(c, isPat, p).audPid != c.audPid ==> PsiPush(c, isPat, p).pes.Idle?
  {
    hide FirstProgram, FirstAudio;
  }

  // ---- every packet keeps to the trail --------------------------------------------------------------

  // The bytes that had gone to pes_feed in the same unit before this packet.
  function FedBefore(t: Option<Trail>, p: Packet): Bytes {
    if UnitStart(p) || t.None? then [] else t.value.fed
  }

  lemma SectionPacket(c: Core, t: Option<Trail>, p: Packet)
    requires Followed(c, t) && !Ignored(p) && !Duplicate(c, p) && ForSections(c, p)
    ensures Followed(Process(c, p).0, NextTrail(c, t, p)) && Process(c, p).1.None?
  {
    hide PsiFeed, Linked, Payloads, PesOf, Payload;
    ProcessValid(c, p);
    var k := Counted(c, p);
    SectionsKeepPes(k, true, Payload(p), UnitStart(p));
    SectionsKeepPes(k, false, Payload(p), UnitStart(p));
    DeliverValid(k, p);
    var t' := NextTrail(c, t, p);
    if t'.Some? && PidOf(p) == c.audPid {
      LinkedExtends(t.value.links, c.audPid, p);
      PayloadsExtend(t.value.links, p);
    }
  }

  lemma OtherPacket(c: Core, t: Option<Trail>, p: Packet)
    requires Followed(c, t) && !Ignored(p) && !Duplicate(c, p) && !ForSections(c, p) && PidOf(p) != c.audPid
    ensures Followed(Process(c, p).0, NextTrail(c, t, p)) && Process(c, p).1.None?
  {
    ProcessValid(c, p);
    hide Ignored, ForSections, Linked, Payloads, PesOf, PidOf, CounterOf, UnitStart, Payload, PayloadAt;
  }

  lemma ProcessUnit(c: Core, p: Packet)
    requires CoreValid(c) && !Ignored(p) && !Duplicate(c, p) && !ForSections(c, p) && PidOf(p) == c.audPid
    requires PayloadAt(p) < PKT
    ensures CoreValid(Counted(c, p))
    ensures Process(c, p) ==
      var run := PesRun(if UnitStart(p) then Header([]) else Counted(c, p).pes, Payload(p));
      (Counted(c, p).(pes := run.0), run.1)
  {
    hide Ignored, PesRun, PidOf, CounterOf, UnitStart, Payload, PayloadAt, Signalled;
  }

  // Counting moves the counter of the packet's PID only, and a gap idles pes_feed.
  lemma CountedIs(c: Core, p: Packet)
    requires CoreValid(c)
    ensures Counted(c, p).audPid == c.audPid && Counted(c, p).pes == if Gap(c, p) then Idle else c.pes
    ensures PidOf(p) == c.audPid ==> 0 <= c.audPid < NPID && Counted(c, p).cc[c.audPid] == CounterOf(p)
  {
    hide Gap, Signalled, CounterOf;
  }

  lemma TrailBegins(c: Core, t: Option<Trail>, p: Packet)
    requires CoreValid(c) && !Ignored(p) && !Duplicate(c, p) && !ForSections(c, p) && PidOf(p) == c.audPid
    requires Payload(p) != [] && UnitStart(p)
    ensures NextTrail(c, t, p) == Some(Trail([p], Payload(p), true)) && FedBefore(t, p) == []
  {
    hide Ignored, Duplicate, ForSections, Gap, Process, PidOf, UnitStart, Payload;
  }

  lemma FollowedBy(c: Core, tr: Trail)
    requires CoreValid(c) && 0 <= c.audPid < NPID && Linked(tr.links, c.audPid)
    requires CounterOf(tr.links[|tr.links| - 1]) == c.cc[c.audPid] && c.pes == PesOf(tr.fed)
    requires tr.whole ==> tr.fed == Payloads(tr.links)
    ensures Followed(c, Some(tr))
  {
    hide CoreValid, Linked, CounterOf, PesOf, Payloads;
  }

  lemma UnitOpens()
    ensures PesOf([]) == Header([]) && Es([]) == []
  {}

  // A payload that begins a unit.
  lemma UnitBegins(c: Core, t: Option<Trail>, p: Packet)
    requires Followed(c, t) && !Ignored(p) && !Duplicate(c, p) && !ForSections(c, p) && PidOf(p) == c.audPid
    requires PayloadAt(p) < PKT && UnitStart(p)
    ensures Followed(Process(c, p).0, NextTrail(c, t, p))
    ensures NextTrail(c, t, p).Some?
    ensures Process(c, p).1.Some? ==> Es(NextTrail(c, t, p).value.fed) == Es(FedBefore(t, p)) + Process(c, p).1.value
  {
    hide Process, Ignored, Duplicate, ForSections, Linked, Payloads, PesOf, PesRun, PidOf, CounterOf, Es, UnitStart, Payload,
      PayloadAt, Counted, NextTrail, FedBefore, CoreValid;
    UnitOpens();
    ProcessValid(c, p);
    ProcessUnit(c, p);
    CountedIs(c, p);
    PayloadNonempty(p);
    TrailBegins(c, t, p);
    UnitGrows([], Payload(p));
    assert [] + Payload(p) == Payload(p);
    LinkedStarts(p);
    hide *;
    FollowedBy(Process(c, p).0, Trail([p], Payload(p), true));
  }

  lemma TrailContinues(c: Core, t: Option<Trail>, p: Packet)
    requires CoreValid(c) && !Ignored(p) && !Duplicate(c, p) && !ForSections(c, p) && PidOf(p) == c.audPid
    requires Payload(p) != [] && !UnitStart(p)
    ensures NextTrail(c, t, p) ==
      if t.None? || Gap(c, p) then None
      else Some(Trail(t.value.links + [p], t.value.fed + Payload(p), t.value.whole))
    ensures t.Some? ==> FedBefore(t, p) == t.value.fed
  {
    hide Ignored, Duplicate, ForSections, Gap, Process, PidOf, UnitStart, Payload;
  }

  lemma SomeLink(links: seq<Packet>, pid: int)
    requires Linked(links, pid)
    ensures links != []
  {}

  // Neither a repetition nor a gap: the next counter.
  lemma NextInLine(c: Core, last: Packet, p: Packet)
    requires CoreValid(c) && 0 <= c.audPid < NPID && PidOf(p) == c.audPid && CounterOf(last) == c.cc[c.audPid]
    requires !Duplicate(c, p) && !Gap(c, p)
    ensures CounterOf(p) == (CounterOf(last) + 1) % 16
  {
    hide PidOf, CoreValid;
  }

  // A payload that continues one, or belongs to none.
  lemma UnitContinues(c: Core, t: Option<Trail>, p: Packet)
    requires Followed(c, t) && !Ignored(p) && !Duplicate(c, p) && !ForSections(c, p) && PidOf(p) == c.audPid
    requires PayloadAt(p) < PKT && !UnitStart(p)
    ensures Followed(Process(c, p).0, NextTrail(c, t, p))
    ensures Process(c, p).1.Some? ==>
      NextTrail(c, t, p).Some? &&
      Es(NextTrail(c, t, p).value.fed) == Es(FedBefore(t, p)) + Process(c, p).1.value
  {
    hide Process, Ignored, Duplicate, ForSections, Linked, Payloads, PesOf, PesRun, PidOf, CounterOf, Es, UnitStart, Payload,
      PayloadAt, Counted, NextTrail, FedBefore, Gap, CoreValid;
    ProcessValid(c, p);
    ProcessUnit(c, p);
    CountedIs(c, p);
    PayloadNonempty(p);
    TrailContinues(c, t, p);
    if t.Some? && !Gap(c, p) {
      var tr := t.value;
      UnitGrows(tr.fed, Payload(p));
      SomeLink(tr.links, c.audPid);
      NextInLine(c, tr.links[|tr.links| - 1], p);
      LinkedExtends(tr.links, c.audPid, p);
      PayloadsExtend(tr.links, p);
      FollowedBy(Process(c, p).0, Trail(tr.links + [p], tr.fed + Payload(p), tr.whole));
    } else {
      IdleStays(p);
    }
  }

  lemma IdleStays(p: Packet)
    ensures PesRun(Idle, Payload(p)) == (Idle, None)
  {}

  // A packet of the audio PID without payload bytes moves only its counter.
  lemma EmptyPacket(c: Core, t: Option<Trail>, p: Packet)
    requires Followed(c, t) && !Ignored(p) && !Duplicate(c, p) && !ForSections(c, p) && PidOf(p) == c.audPid
    requires PayloadAt(p) >= PKT
    ensures Followed(Process(c, p).0, NextTrail(c, t, p)) && Process(c, p).1.None?
  {
    ProcessValid(c, p);
    hide Ignored, ForSections, Linked, Payloads, PesOf, PidOf, CounterOf, UnitStart, Payload, PayloadAt;
    PayloadNonempty(p);
    if t.Some? && !Gap(c, p) {
      LinkedExtends(t.value.links, c.audPid, p);
      PayloadsExtend(t.value.links, p);
      assert t.value.fed + [] == t.value.fed && Payloads(t.value.links) + [] == Payloads(t.value.links);
    }
  }

  lemma PayloadNonempty(p: Packet)
    ensures Payload(p) != [] <==> PayloadAt(p) < PKT
  {}

  lemma LinkedStarts(p: Packet)
    requires UnitStart(p)
    ensures Linked([p], PidOf(p)) && Payloads([p]) == Payload(p)
  {}

  lemma PacketFollowed(c: Core, t: Option<Trail>, p: Packet)
    requires Followed(c, t)
    ensures Followed(Process(c, p).0, NextTrail(c, t, p))
    ensures Process(c, p).1.Some? ==>
      NextTrail(c, t, p).Some? &&
      Es(NextTrail(c, t, p).value.fed) == Es(FedBefore(t, p)) + Process(c, p).1.value
  {
    hide Followed, ForSections, Es, FedBefore, Ignored, Duplicate, Deliver;
    if Ignored(p) || Duplicate(c, p) {
    } else if ForSections(c, p) {
      SectionPacket(c, t, p);
    } else if PidOf(p) != c.audPid {
      OtherPacket(c, t, p);
    } else if PayloadAt(p) < PKT && UnitStart(p) {
      UnitBegins(c, t, p);
    } else if PayloadAt(p) < PKT {
      UnitContinues(c, t, p);
    } else {
      EmptyPacket(c, t, p);
    }
  }

  // ---- whole runs -----------------------------------------------------------------------------------------

  datatype Event = Arrive(p: Packet) | Reset

  // The demuxer after a run of packets and resets, with the trail it is on.
  function Run(c: Core, t: Option<Trail>, events: seq<Event>): (r: (Core, Option<Trail>))
    requires CoreValid(c)
    ensures CoreValid(r.0)
    decreases |events|
  {
    if events == [] then (c, t)
    else
      match events[0]
      case Arrive(p) =>
        ProcessValid(c, p);
        Run(Process(c, p).0, NextTrail(c, t, p), events[1..])
      case Reset => Run(CoreReset(c), None, events[1..])
  }

  lemma {:induction false} RunFollowed(c: Core, t: Option<Trail>, events: seq<Event>)
    requires Followed(c, t)
    ensures Followed(Run(c, t, events).0, Run(c, t, events).1)
    decreases |events|
  {
    hide Process, NextTrail, Linked, PesOf;
    if events != [] {
      match events[0]
      case Arrive(p) =>
        PacketFollowed(c, t, p);
        RunFollowed(Process(c, p).0, NextTrail(c, t, p), events[1..]);
      case Reset =>
        assert Followed(CoreReset(c), None) by { ResetFollowed(c); }
        RunFollowed(CoreReset(c), None, events[1..]);
    }
  }

  lemma ResetFollowed(c: Core)
    ensures Followed(CoreReset(c), None)
  {}

  /** Whatever went before, every byte handed out ends a chain of packets of the current audio PID that
      begins with a unit start and has consecutive counters, the last of them the packet just processed;
      and what the unit has handed out so far is exactly the elementary bytes of what it carried. */
  lemma NothingSpliced(events: seq<Event>, p: Packet)
    ensures var (c, t) := Run(NEW_CORE, None, events);
      Process(c, p).1.Some? ==>
        var t' := NextTrail(c, t, p);
        && t'.Some? && t'.value.links[|t'.value.links| - 1..] == [p]
        && Linked(t'.value.links, c.audPid)
        && (t'.value.whole ==> t'.value.fed == Payloads(t'.value.links))
        && Es(t'.value.fed) == Es(FedBefore(t, p)) + Process(c, p).1.value
  {
    ResetFollowed(NEW_CORE);
    assert CoreReset(NEW_CORE) == NEW_CORE;
    RunFollowed(NEW_CORE, None, events);
    var (c, t) := Run(NEW_CORE, None, events);
    PacketFollowed(c, t, p);
    if Process(c, p).1.Some? { EndsWith(c, t, p); }
  }

  // Bytes go out for a payload of the audio PID only.
  lemma OutputIs(c: Core, p: Packet)
    requires CoreValid(c) && Process(c, p).1.Some?
    ensures !Ignored(p) && !Duplicate(c, p) && !ForSections(c, p) && PidOf(p) == c.audPid && PayloadAt(p) < PKT
  {
    hide Ignored, Duplicate, PesFeed, PsiFeed, Payload, PayloadAt, PidOf, UnitStart, Gap, CounterOf, Signalled;
  }

  lemma EndsWith(c: Core, t: Option<Trail>, p: Packet)
    requires Followed(c, t) && Process(c, p).1.Some?
    ensures NextTrail(c, t, p).Some? ==> var links := NextTrail(c, t, p).value.links; links[|links| - 1..] == [p]
    ensures Process(c, p).0.audPid == c.audPid
  {
    hide Process, Ignored, Duplicate, ForSections, Linked, Payloads, PesOf, PesRun, PidOf, CounterOf, Es, UnitStart, Payload,
      PayloadAt, Counted, NextTrail, FedBefore, Gap, CoreValid;
    OutputIs(c, p);
    ProcessUnit(c, p);
    CountedIs(c, p);
    PayloadNonempty(p);
    if UnitStart(p) { TrailBegins(c, t, p); } else { TrailContinues(c, t, p); }
  }

  // The PMT is never expected on the audio PID.
  predicate Apart(c: Core) {
    c.audPid != 0 && c.audPid != c.pmtPid
  }

  predicate AlwaysApart(c: Core, events: seq<Event>)
    requires CoreValid(c)
    decreases |events|
  {
    && Apart(c)
    && (events != [] ==>
          match events[0]
          case Arrive(p) => ProcessValid(c, p); AlwaysApart(Process(c, p).0, events[1..])
          case Reset => AlwaysApart(CoreReset(c), events[1..]))
  }

  /** As long as no PAT puts the PMT on the audio PID, a unit misses nothing: what went to pes_feed is
      the payload of every packet in its chain. */
  lemma {:induction false} NothingMissing(c: Core, t: Option<Trail>, events: seq<Event>)
    requires Followed(c, t) && (t.Some? ==> t.value.whole) && AlwaysApart(c, events)
    ensures var t' := Run(c, t, events).1; t'.Some? ==> t'.value.whole
    decreases |events|
  {
    hide Process, Linked, PesOf;
    if events != [] {
      match events[0]
      case Arrive(p) =>
        PacketFollowed(c, t, p);
        NothingMissing(Process(c, p).0, NextTrail(c, t, p), events[1..]);
      case Reset =>
        ResetFollowed(c);
        NothingMissing(CoreReset(c), None, events[1..]);
    }
  }
}
