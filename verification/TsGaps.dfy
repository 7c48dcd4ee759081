/** src/ts_demux.c: what a gap in one PID's counters does to the unit on another. The state of pes_feed is
    cleared by a gap on any PID, not only on the audio PID (src/ts_demux.c:270-290). */
module TsGaps {
  import opened Prelude
  import opened TsPacket
  import opened TsTables
  import opened TsUnits

  // A packet that is counted, but whose payload goes nowhere.
  predicate Elsewhere(c: Core, p: Packet) {
    !Ignored(p) && !Duplicate(c, p) && !ForSections(c, p) && PidOf(p) != c.audPid
  }

  // The next packet of the audio PID, in the middle of a unit.
  predicate Continues(c: Core, q: Packet) {
    && !Ignored(q) && !ForSections(c, q) && PidOf(q) == c.audPid && !UnitStart(q) && Payload(q) != []
    && c.cc[PidOf(q)] >= 0 && CounterOf(q) == (c.cc[PidOf(q)] + 1) % 16
  }

  /** A packet of neither tables nor audio leaves the audio unit as it was, unless its own PID's counters
      show a gap while a unit is open: then the unit is given up. */
  lemma UnitKeptIff(c: Core, p: Packet)
    requires CoreValid(c) && Elsewhere(c, p)
    ensures Process(c, p).1.None?
    ensures Process(c, p).0 == Counted(c, p)
    ensures Process(c, p).0.pes == c.pes <==> !Gap(c, p) || c.pes.Idle?
    ensures Gap(c, p) ==> Process(c, p).0.pes.Idle?
  {
    hide Ignored, PidOf, CounterOf, PayloadAt, Signalled;
  }

  lemma ContinuesUnit(c: Core, q: Packet)
    requires CoreValid(c) && Continues(c, q) && (c.pes.Data? || c.pes.Idle?)
    ensures Process(c, q).1 == if c.pes.Data? then Some(Payload(q)) else None
  {
    PayloadNonempty(q);
    assert !Duplicate(c, q) && !Gap(c, q);
    ProcessUnit(c, q);
    hide Ignored, PidOf, CounterOf, UnitStart, Payload, PayloadAt, Process, Signalled;
  }

  /** Between two packets of a unit without a gap of their own, one packet of another PID decides: the second
      is handed out if and only if the other PID shows no gap either. */
  lemma SilencedIff(c: Core, p: Packet, q: Packet)
    requires CoreValid(c) && c.pes.Data? && Elsewhere(c, p) && Continues(c, q)
    ensures Process(c, q).1 == Some(Payload(q))
    ensures CoreValid(Process(c, p).0)
    ensures Process(Process(c, p).0, q).1 == if Gap(c, p) then None else Some(Payload(q))
  {
    ProcessValid(c, p);
    UnitKeptIff(c, p);
    ContinuesUnit(c, q);
    StillContinues(c, p, q);
    ContinuesUnit(Process(c, p).0, q);
    hide *;
  }

  lemma StillContinues(c: Core, p: Packet, q: Packet)
    requires CoreValid(c) && Elsewhere(c, p) && Continues(c, q)
    ensures Continues(Counted(c, p), q)
  {
    hide Ignored, PidOf, CounterOf, UnitStart, Payload, Signalled, Gap;
  }

  /** Such packets exist wherever a unit is being handed out and another PID has been seen: with lost packets
      missing from that PID, and none from the audio PID, the next payload of the unit goes out if lost is 0
      and is dropped if lost is 1 to 14. */
  lemma LossElsewhere(c: Core, other: Pid, lost: nat, filler: Bytes, payload: Bytes)
    requires CoreValid(c) && c.pes.Data? && Apart(c) && 0 <= c.audPid < NULL_PID
    requires other !in [0, c.pmtPid, c.audPid, NULL_PID]
    requires 0 <= c.cc[c.audPid] < 16 && 0 <= c.cc[other] < 16 && lost < 15
    requires |filler| == |payload| == PKT - 4
    ensures var p := Build(other, false, (c.cc[other] + 1 + lost) % 16, None, filler);
      var q := Build(c.audPid, false, (c.cc[c.audPid] + 1) % 16, None, payload);
      && Process(c, q).1 == Some(payload)
      && CoreValid(Process(c, p).0) && Process(Process(c, p).0, q).1 == if lost > 0 then None else Some(payload)
  {
    var n, m := (c.cc[other] + 1 + lost) % 16, (c.cc[c.audPid] + 1) % 16;
    BuildReadsBack(other, false, n, None, filler);
    BuildReadsBack(c.audPid, false, m, None, payload);
    var p, q := Build(other, false, n, None, filler), Build(c.audPid, false, m, None, payload);
    assert n != c.cc[other] && (n == (c.cc[other] + 1) % 16 <==> lost == 0);
    hide Build, PidOf, CounterOf, UnitStart, Payload, PayloadAt, Scrambled, HasPayload, HasAdaptation, Process;
    SilencedIff(c, p, q);
  }
}
