/** The round trip through src/ts_demux.c: whatever elementary bytes a sender packs into PES units,
    packets and program tables, the demuxer hands out again. */
module TsMux {
  import opened Prelude
  import opened TsPacket
  import opened TsTables
  import opened TsUnits
  import opened TsFrame

  // ---- PES units (section 2.4.3.6) ------------------------------------------------------------------

  // fixed is the packet length and the two flag bytes, optional what the flags announce.
  datatype Unit = Unit(streamId: byte, fixed: Bytes, optional: Bytes, es: Bytes)

  predicate UnitOk(u: Unit) {
    0xC0 <= u.streamId <= 0xDF && |u.fixed| == 4 && |u.optional| < 256
  }

  function UnitBytes(u: Unit): Bytes
    requires UnitOk(u)
  {
    [0, 0, 1, u.streamId] + u.fixed + [|u.optional| as byte] + u.optional + u.es
  }

  lemma UnitReadsBack(u: Unit)
    requires UnitOk(u)
    ensures Es(UnitBytes(u)) == u.es
  {
    var b := UnitBytes(u);
    assert b[8] as int == |u.optional|;
    assert b[9 + |u.optional|..] == u.es;
  }

  /** Nothing else yields a byte: bytes that hold elementary ones are a unit so built. */
  lemma OnlyUnitsYield(b: Bytes) returns (u: Unit)
    requires Es(b) != []
    ensures UnitOk(u) && UnitBytes(u) == b && u.es == Es(b)
  {
    var n := b[8] as int;
    u := Unit(b[3], b[4..8], b[9..9 + n], b[9 + n..]);
    assert b == b[..4] + b[4..8] + b[8..9] + b[9..9 + n] + b[9 + n..];
    assert b[..4] == [0, 0, 1, b[3]] && b[8..9] == [n as byte];
  }

  // The payload of one packet of the audio PID, and whether it starts a unit.
  datatype Piece = Piece(start: bool, bytes: Bytes)

  lemma EsGrows(unit: Bytes, p: Bytes)
    ensures Es(unit) <= Es(unit + p)
  {
    if p == [] {
      assert unit + p == unit;
    } else {
      UnitGrows(unit, p);
    }
  }

  // The elementary bytes pieces add, when fed has gone before in the same unit.
  function Yield(fed: Bytes, pieces: seq<Piece>): Bytes
    decreases |pieces|
  {
    if pieces == [] then []
    else
      var before := if pieces[0].start then [] else fed;
      EsGrows(before, pieces[0].bytes);
      Es(before + pieces[0].bytes)[|Es(before)|..] + Yield(before + pieces[0].bytes, pieces[1..])
  }

  // A unit cut into pieces.
  function PiecesOf(chunks: seq<Bytes>, start: bool): seq<Piece> {
    if chunks == [] then [] else [Piece(start, chunks[0])] + PiecesOf(chunks[1..], false)
  }

  function AllPieces(cuts: seq<seq<Bytes>>): seq<Piece> {
    if cuts == [] then [] else PiecesOf(cuts[0], true) + AllPieces(cuts[1..])
  }

  function AllEs(units: seq<Unit>): Bytes {
    if units == [] then [] else units[0].es + AllEs(units[1..])
  }

  lemma {:induction false} YieldContinues(fed: Bytes, chunks: seq<Bytes>, rest: seq<Piece>)
    ensures Es(fed) <= Es(fed + Flatten(chunks))
    ensures Yield(fed, PiecesOf(chunks, false) + rest) ==
      Es(fed + Flatten(chunks))[|Es(fed)|..] + Yield(fed + Flatten(chunks), rest)
    decreases |chunks|
  {
    hide Es;
    EsGrows(fed, Flatten(chunks));
    if chunks == [] {
      assert fed + [] == fed && [] + rest == rest;
    } else {
      var next := fed + chunks[0];
      EsGrows(fed, chunks[0]);
      assert (PiecesOf(chunks, false) + rest)[1..] == PiecesOf(chunks[1..], false) + rest;
      assert fed + Flatten(chunks) == next + Flatten(chunks[1..]);
      YieldContinues(next, chunks[1..], rest);
    }
  }

  lemma YieldUnit(fed: Bytes, chunks: seq<Bytes>, rest: seq<Piece>)
    requires chunks != []
    ensures Yield(fed, PiecesOf(chunks, true) + rest) == Es(Flatten(chunks)) + Yield(Flatten(chunks), rest)
  {
    EsOfNothing();
    hide Yield, PiecesOf, Es, Flatten;
    YieldContinues([], chunks, rest);
    PiecesSplit(chunks, true, rest);
    PiecesSplit(chunks, false, rest);
    YieldRestarts(fed, PiecesOf(chunks, true) + rest, PiecesOf(chunks, false) + rest);
    assert [] + Flatten(chunks) == Flatten(chunks);
  }

  lemma EsOfNothing()
    ensures Es([]) == []
  {}

  lemma PiecesSplit(chunks: seq<Bytes>, start: bool, rest: seq<Piece>)
    requires chunks != []
    ensures var pieces := PiecesOf(chunks, start) + rest;
      pieces != [] && pieces[0] == Piece(start, chunks[0]) && pieces[1..] == PiecesOf(chunks[1..], false) + rest
  {
    var tail, pieces := PiecesOf(chunks[1..], false), PiecesOf(chunks, start);
    assert pieces == [Piece(start, chunks[0])] + tail;
    hide PiecesOf;
    assert pieces + rest == [Piece(start, chunks[0])] + (tail + rest);
  }

  // A piece that starts a unit forgets what came before.
  lemma YieldRestarts(fed: Bytes, pieces: seq<Piece>, same: seq<Piece>)
    requires pieces != [] && same != [] && pieces[0].start && pieces[0].bytes == same[0].bytes
    requires pieces[1..] == same[1..]
    ensures Yield(fed, pieces) == Yield([], same)
  {}

  // cuts are the units, cut.
  ghost predicate CutsOf(cuts: seq<seq<Bytes>>, units: seq<Unit>) {
    && |cuts| == |units|
    && forall k | 0 <= k < |units| :: UnitOk(units[k]) && cuts[k] != [] && Flatten(cuts[k]) == UnitBytes(units[k])
  }

  lemma {:induction false} YieldUnits(fed: Bytes, cuts: seq<seq<Bytes>>, units: seq<Unit>)
    requires CutsOf(cuts, units)
    ensures Yield(fed, AllPieces(cuts)) == AllEs(units)
    decreases |cuts|
  {
    if cuts != [] {
      YieldUnit(fed, cuts[0], AllPieces(cuts[1..]));
      UnitReadsBack(units[0]);
      YieldUnits(Flatten(cuts[0]), cuts[1..], units[1..]);
    }
  }

  // ---- the sender ---------------------------------------------------------------------------------------

  // A stream whose tables name a program and an audio stream of it, on PIDs of their own.
  predicate MuxOk(t: Tables) {
    && TablesOk(t) && FirstOf(t.programs).Some? && FirstAudioOf(t.streams).Some?
    && PmtPid(t) != 0 && AudioPid(t) != 0 && AudioPid(t) != PmtPid(t)
  }

  function PmtPid(t: Tables): Pid {
    if FirstOf(t.programs).Some? then FirstOf(t.programs).value else 0
  }

  function AudioPid(t: Tables): Pid {
    if FirstAudioOf(t.streams).Some? then FirstAudioOf(t.streams).value.pid else 0
  }

  // Which tables have been sent once: the PMT follows a PAT, and audio a PMT.
  datatype Phase = Silent | PatSent | Named

  // The counters in use, and how much of a table under way has been sent.
  datatype Sender = Sender(cc: Counters, phase: Phase, pat: Option<nat>, pmt: Option<nat>)

  const NEW_SENDER := Sender(NO_COUNTERS, Silent, None, None)

  // More bytes for a table section of which left have been sent: what remains under way, and whether
  // the section is now complete; None if they are not the section's. Bytes outside a section are stuffing.
  function More(table: Bytes, sent: Option<nat>, bytes: Bytes): Option<(Option<nat>, bool)> {
    match sent
    case None => Some((None, false))
    case Some(n) =>
      if n > |table| then None
      else if n + |bytes| >= |table| then
        if bytes[..|table| - n] == table[n..] then Some((None, true)) else None
      else if bytes == table[n..n + |bytes|] then Some((Some(n + |bytes|), false)) else None
  }

  // The payload of a packet carrying tables: a pointer field, the end of a section and the start of
  // the next, or just more of a section.
  function TableNext(table: Bytes, sent: Option<nat>, payload: Bytes, start: bool): Option<(Option<nat>, bool)>
    requires payload != []
  {
    if !start then More(table, sent, payload)
    else if payload[0] as int > |payload| - 1 then None
    else
      match More(table, sent, payload[1..1 + payload[0] as int])
      case None => None
      case Some((left, done)) =>
        if left.Some? then None
        else
          match More(table, Some(0), payload[1 + payload[0] as int..])
          case None => None
          case Some((left', done')) => Some((left', done || done'))
  }

  predicate Repeated(s: Sender, p: Packet) {
    s.cc[PidOf(p)] >= 0 && CounterOf(p) == s.cc[PidOf(p)]
  }

  predicate InSequence(s: Sender, p: Packet) {
    s.cc[PidOf(p)] >= 0 ==> CounterOf(p) == (s.cc[PidOf(p)] + 1) % 16
  }

  function Carry(t: Tables, s: Sender, p: Packet, isPat: bool): Option<Sender>
    requires TablesOk(t) && PayloadAt(p) < PKT
  {
    match TableNext(TableBytes(t, isPat), if isPat then s.pat else s.pmt, Payload(p), UnitStart(p))
    case None => None
    case Some((left, done)) =>
      if isPat then Some(s.(pat := left, phase := if done && s.phase.Silent? then PatSent else s.phase))
      else Some(s.(pmt := left, phase := if done then Named else s.phase))
  }

  // The sender after one packet, or None if it would not send it. Null packets, packets without payload
  // and duplicates may come at any time, and other PIDs in sequence.
  function Send(t: Tables, s: Sender, p: Packet): Option<Sender>
    requires TablesOk(t)
  {
    if !HeaderOk(p) then None
    else if Ignored(p) || Repeated(s, p) then Some(s)
    else if !InSequence(s, p) then None
    else
      var s' := s.(cc := s.cc[PidOf(p) := CounterOf(p)]);
      if PayloadAt(p) >= PKT then Some(s')
      else if PidOf(p) == 0 then Carry(t, s', p, true)
      else if PidOf(p) == PmtPid(t) then if s.phase.Silent? then None else Carry(t, s', p, false)
      else if PidOf(p) == AudioPid(t) && !s.phase.Named? then None
      else Some(s')
  }

  predicate IsPiece(t: Tables, s: Sender, p: Packet) {
    !Ignored(p) && !Repeated(s, p) && PidOf(p) == AudioPid(t) && PayloadAt(p) < PKT
  }

  ghost predicate Sends(t: Tables, s: Sender, packets: seq<Packet>)
    requires TablesOk(t)
    decreases |packets|
  {
    packets != [] ==> Send(t, s, packets[0]).Some? && Sends(t, Send(t, s, packets[0]).value, packets[1..])
  }

  // The audio payloads among the packets sent.
  ghost function Pieces(t: Tables, s: Sender, packets: seq<Packet>): seq<Piece>
    requires TablesOk(t) && Sends(t, s, packets)
    decreases |packets|
  {
    if packets == [] then []
    else
      (if IsPiece(t, s, packets[0]) then [Piece(UnitStart(packets[0]), Payload(packets[0]))] else []) +
      Pieces(t, Send(t, s, packets[0]).value, packets[1..])
  }

  // ---- the demuxer follows the sender --------------------------------------------------------------------

  function SectionFor(table: Bytes, sent: Option<nat>): Section {
    match sent
    case None => NO_SECTION
    case Some(n) => Section(true, if n <= |table| then table[..n] else table)
  }

  predicate Follows(t: Tables, s: Sender, c: Core)
    requires TablesOk(t)
  {
    && c.cc == s.cc
    && c.pat == SectionFor(PatBytes(t), s.pat) && c.pmt == SectionFor(PmtBytes(t), s.pmt)
    && c.pmtPid == (if s.phase.Silent? then -1 else PmtPid(t))
    && c.audPid == (if s.phase.Named? then AudioPid(t) else -1)
    && (s.phase.Named? && FirstAudioOf(t.streams).Some? ==> c.streamType == FirstAudioOf(t.streams).value.kind)
    && (s.phase.Silent? ==> s.pmt.None?)
    && (!s.phase.Named? ==> c.pes.Idle?)
    && CoreValid(c)
  }

  // What a complete table does to the demuxer.
  function Naming(t: Tables, c: Core, isPat: bool): Core
    requires MuxOk(t)
  {
    if isPat then if c.pmtPid == PmtPid(t) then c else c.(pmtPid := PmtPid(t), pmt := NO_SECTION)
    else
      c.(audPid := AudioPid(t), streamType := FirstAudioOf(t.streams).value.kind,
         pes := if c.audPid == AudioPid(t) then c.pes else Idle)
  }

  // sec_push on a section under way.
  lemma PushSection(table: Bytes, n: nat, bytes: Bytes)
    requires 3 <= |table| <= SEC_MAX && SecTotal(table) == |table| && n < |table|
    requires More(table, Some(n), bytes).Some?
    ensures var (s, whole) := SecPush(Section(true, table[..n]), bytes);
      && whole == More(table, Some(n), bytes).value.1
      && s == Section(true, if whole then table + s.buf[|table|..] else table[..n + |bytes|])
      && (whole ==> |s.buf| >= |table|)
  {
    var all := table[..n] + bytes;
    if n + |bytes| >= |table| {
      var fits := if |bytes| > SEC_MAX - n then SEC_MAX - n else |bytes|;
      var kept := table[..n] + bytes[..fits];
      assert bytes[..|table| - n] == bytes[..fits][..|table| - n];
      assert kept[..|table|] == table;
      assert kept == table + kept[|table|..];
      assert kept[1] == table[1] && kept[2] == table[2];
    } else {
      assert bytes[..|bytes|] == bytes;
      assert all == table[..n + |bytes|];
    }
  }

  lemma TableTotal(t: Tables, isPat: bool)
    requires TablesOk(t)
    ensures SecTotal(TableBytes(t, isPat)) == |TableBytes(t, isPat)|
  {
    assert TableBytes(t, isPat) + [] == TableBytes(t, isPat);
    if isPat { PatReadsBack(t, [], NEW_CORE); } else { PmtReadsBack(t, [], NEW_CORE); }
  }

  lemma WholeTable(t: Tables, isPat: bool, tail: Bytes, c: Core)
    requires MuxOk(t)
    ensures var s := TableBytes(t, isPat) + tail;
      && SecTotal(s) == |TableBytes(t, isPat)|
      && (if isPat then ParsePat(c, s, SecTotal(s)) else ParsePmt(c, s, SecTotal(s))) == Naming(t, c, isPat)
  {
    if isPat { PatReadsBack(t, tail, c); } else { PmtReadsBack(t, tail, c); }
  }

  lemma MoreFollowed(t: Tables, c: Core, isPat: bool, sent: Option<nat>, bytes: Bytes)
    requires MuxOk(t) && CoreValid(c)
    requires var table := TableBytes(t, isPat);
      SectionOf(c, isPat) == SectionFor(table, sent) && More(table, sent, bytes).Some? && (sent.Some? ==> sent.value < |table|)
    ensures var (left, done) := More(TableBytes(t, isPat), sent, bytes).value;
      PsiPush(c, isPat, bytes) ==
        WithSection(if done then Naming(t, c, isPat) else c, isPat, SectionFor(TableBytes(t, isPat), left))
  {
    var table := TableBytes(t, isPat);
    TableTotal(t, isPat);
    hide ParsePat, ParsePmt, TableBytes, SecTotal, SecPush, More, Naming;
    if sent.Some? {
      PushSection(table, sent.value, bytes);
      var (s, whole) := SecPush(SectionOf(c, isPat), bytes);
      if whole { WholeTable(t, isPat, s.buf[|table|..], WithSection(c, isPat, s)); }
      NamingElsewhere(t, c, isPat, s);
    }
  }

  lemma NamingElsewhere(t: Tables, c: Core, isPat: bool, s: Section)
    requires MuxOk(t)
    ensures WithSection(Naming(t, WithSection(c, isPat, s), isPat), isPat, NO_SECTION) ==
            WithSection(Naming(t, c, isPat), isPat, NO_SECTION)
  {}

  // Less than the whole of a table has been sent.
  predicate UnderWay(t: Tables, s: Sender)
    requires TablesOk(t)
  {
    (s.pat.Some? ==> s.pat.value < |PatBytes(t)|) && (s.pmt.Some? ==> s.pmt.value < |PmtBytes(t)|)
  }

  lemma MoreUnderWay(table: Bytes, sent: Option<nat>, bytes: Bytes)
    requires table != [] && More(table, sent, bytes).Some?
    ensures var left := More(table, sent, bytes).value.0; left.Some? ==> left.value < |table|
    ensures More(table, sent, bytes).value.1 ==> sent.Some?
  {}

  // psi_feed on the payload of a packet carrying tables.
  lemma TableFollowed(t: Tables, c: Core, isPat: bool, sent: Option<nat>, payload: Bytes, start: bool)
    requires MuxOk(t) && CoreValid(c) && payload != []
    requires SectionOf(c, isPat) == SectionFor(TableBytes(t, isPat), sent)
    requires sent.Some? ==> sent.value < |TableBytes(t, isPat)|
    requires TableNext(TableBytes(t, isPat), sent, payload, start).Some?
    ensures var (left, done) := TableNext(TableBytes(t, isPat), sent, payload, start).value;
      && PsiFeed(c, isPat, payload, start) ==
           WithSection(if done then Naming(t, c, isPat) else c, isPat, SectionFor(TableBytes(t, isPat), left))
      && (left.Some? ==> left.value < |TableBytes(t, isPat)|)
  {
    var table := TableBytes(t, isPat);
    hide More, TableBytes, PsiPush, MuxOk, Naming;
    if !start {
      MoreFollowed(t, c, isPat, sent, payload);
      MoreUnderWay(table, sent, payload);
    } else {
      var before, after := payload[1..1 + payload[0] as int], payload[1 + payload[0] as int..];
      MoreFollowed(t, c, isPat, sent, before);
      PsiPushValid(c, isPat, before);
      MoreUnderWay(table, sent, before);
      MoreUnderWay(table, Some(0), after);
      var done := More(table, sent, before).value.1;
      var c1 := WithSection(if done then Naming(t, c, isPat) else c, isPat, Section(true, []));
      NamingValid(t, c, isPat);
      MoreFollowed(t, c1, isPat, Some(0), after);
      NamedTwice(t, c, isPat, Section(true, []));
    }
  }

  lemma NamingValid(t: Tables, c: Core, isPat: bool)
    requires MuxOk(t) && CoreValid(c)
    ensures CoreValid(Naming(t, c, isPat))
  {}

  lemma NamedTwice(t: Tables, c: Core, isPat: bool, s: Section)
    requires MuxOk(t)
    ensures forall s' :: (
      var once := WithSection(Naming(t, c, isPat), isPat, s');
      && WithSection(Naming(t, WithSection(Naming(t, c, isPat), isPat, s), isPat), isPat, s') == once
      && WithSection(Naming(t, WithSection(c, isPat, s), isPat), isPat, s') == once)
  {}

  // A packet carrying tables leaves the demuxer where the sender is.
  lemma CarryFollowed(t: Tables, s: Sender, c: Core, p: Packet, isPat: bool)
    requires MuxOk(t) && Follows(t, s, c) && PayloadAt(p) < PKT && (!isPat ==> !s.phase.Silent?)
    requires UnderWay(t, s) && Carry(t, s, p, isPat).Some?
    ensures var c' := PsiFeed(c, isPat, Payload(p), UnitStart(p));
      Follows(t, Carry(t, s, p, isPat).value, c') && c'.pes == c.pes && c'.ccErrors == c.ccErrors
    ensures UnderWay(t, Carry(t, s, p, isPat).value)
  {
    PsiFeedValid(c, isPat, Payload(p), UnitStart(p));
    TableFollowed(t, c, isPat, if isPat then s.pat else s.pmt, Payload(p), UnitStart(p));
    hide TableNext, PsiFeed, Payload, PayloadAt, UnitStart, PatBytes, PmtBytes, TablesOk;
  }

  /** One packet of the sender's: the demuxer stays in step, counts no error, and passes the payload on
      to pes_feed exactly if it is a piece of a unit. */
  lemma SendFollowed(t: Tables, s: Sender, c: Core, p: Packet)
    requires MuxOk(t) && Follows(t, s, c) && UnderWay(t, s) && Send(t, s, p).Some?
    ensures Follows(t, Send(t, s, p).value, Process(c, p).0) && UnderWay(t, Send(t, s, p).value)
    ensures Process(c, p).0.ccErrors == c.ccErrors
    ensures if IsPiece(t, s, p) && s.phase.Named?
      then (Process(c, p).0.pes, Process(c, p).1) == PesRun(if UnitStart(p) then Header([]) else c.pes, Payload(p))
      else Process(c, p).0.pes == c.pes && Process(c, p).1.None?
    ensures IsPiece(t, s, p) ==> s.phase.Named?
  {
    ProcessValid(c, p);
    hide Carry, PsiFeed, PesRun, SectionFor, Ignored, HeaderOk, Payload, PayloadAt, PidOf, UnitStart, PatBytes,
      PmtBytes, TablesOk, FirstOf, FirstAudioOf;
    if Ignored(p) || Repeated(s, p) || PayloadAt(p) >= PKT {
    } else {
      var k := Counted(c, p);
      var s' := s.(cc := s.cc[PidOf(p) := CounterOf(p)]);
      if PidOf(p) == 0 {
        CarryFollowed(t, s', k, p, true);
      } else if PidOf(p) == PmtPid(t) {
        CarryFollowed(t, s', k, p, false);
      }
    }
  }

  // What a list of packets does to the demuxer.
  function ProcessAll(c: Core, packets: seq<Packet>): (Core, seq<Bytes>)
    requires CoreValid(c)
    decreases |packets|
  {
    if packets == [] then (c, [])
    else
      ProcessValid(c, packets[0]);
      var (c', out) := Process(c, packets[0]);
      var (last, outs) := ProcessAll(c', packets[1..]);
      (last, (if out.Some? then [out.value] else []) + outs)
  }

  // The callback's bytes, one call after another.
  lemma FlattenOne(out: Option<Bytes>, outs: seq<Bytes>)
    ensures Flatten((if out.Some? then [out.value] else []) + outs) ==
      (if out.Some? then out.value else []) + Flatten(outs)
  {
    if out.Some? {
      assert ([out.value] + outs)[1..] == outs;
    } else {
      assert [] + outs == outs && [] + Flatten(outs) == Flatten(outs);
    }
  }

  lemma PieceYields(fed: Bytes, start: bool, payload: Bytes)
    requires payload != []
    ensures var before := if start then [] else fed;
      var (pes, out) := PesRun(PesOf(before), payload);
      && pes == PesOf(before + payload)
      && Es(before) <= Es(before + payload)
      && Es(before + payload)[|Es(before)|..] == if out.Some? then out.value else []
  {
    UnitGrows(if start then [] else fed, payload);
  }

  lemma NamedStays(t: Tables, s: Sender, p: Packet)
    requires TablesOk(t) && s.phase.Named? && Send(t, s, p).Some?
    ensures Send(t, s, p).value.phase.Named?
  {
    hide TableNext, Ignored, HeaderOk, TablesOk;
  }

  lemma PiecePayload(p: Packet)
    requires PayloadAt(p) < PKT
    ensures Payload(p) != []
  {}

  // A piece first in line yields what its packet hands out, and the rest follows from there.
  lemma YieldStep(fed: Bytes, piece: Piece, rest: seq<Piece>, pes: Pes, out: Option<Bytes>)
    requires piece.bytes != []
    requires (pes, out) == PesRun(PesOf(if piece.start then [] else fed), piece.bytes)
    ensures var after := (if piece.start then [] else fed) + piece.bytes;
      pes == PesOf(after) &&
      Yield(fed, [piece] + rest) == (if out.Some? then out.value else []) + Yield(after, rest)
  {
    PieceYields(fed, piece.start, piece.bytes);
    assert ([piece] + rest)[1..] == rest;
    hide PesRun, PesOf, Es;
  }

  /** The packets' payloads come out as the units they carry. */
  lemma {:induction false} PacketsYield(t: Tables, s: Sender, c: Core, packets: seq<Packet>, fed: Bytes)
    requires MuxOk(t) && Follows(t, s, c) && UnderWay(t, s) && Sends(t, s, packets)
    requires c.pes == PesOf(fed) || (Pieces(t, s, packets) != [] ==> Pieces(t, s, packets)[0].start)
    ensures var (last, outs) := ProcessAll(c, packets);
      && Flatten(outs) == Yield(fed, Pieces(t, s, packets))
      && last.ccErrors == c.ccErrors
      && (s.phase.Named? || Pieces(t, s, packets) != [] ==>
            last.streamType == FirstAudioOf(t.streams).value.kind as int)
    decreases |packets|
  {
    hide Send, Process, SectionFor, UnderWay, Payload, PayloadAt, UnitStart, PesRun, Es, FirstOf, TablesOk;
    if packets != [] {
      var p := packets[0];
      var s', rest := Send(t, s, p).value, Pieces(t, Send(t, s, p).value, packets[1..]);
      var (c', out) := Process(c, p);
      SendFollowed(t, s, c, p);
      if s.phase.Named? { NamedStays(t, s, p); }
      var outs := ProcessAll(c', packets[1..]).1;
      FlattenOne(out, outs);
      if IsPiece(t, s, p) {
        var piece := Piece(UnitStart(p), Payload(p));
        assert Pieces(t, s, packets) == [piece] + rest;
        PiecePayload(p);
        YieldStep(fed, piece, rest, c'.pes, out);
        PacketsYield(t, s', c', packets[1..], (if piece.start then [] else fed) + piece.bytes);
      } else {
        assert Pieces(t, s, packets) == [] + rest == rest;
        PacketsYield(t, s', c', packets[1..], fed);
      }
    }
  }

  // ---- framing ------------------------------------------------------------------------------------------

  // Bytes that do not fill the buffer beyond what is wanted are just gathered.
  lemma {:induction false} Gathers(d: Demux, bytes: Bytes, rest: Bytes)
    requires Valid(d) && |d.buf| + |bytes| <= Want(d.synced)
    requires d.synced || d.buf != [] || (bytes != [] && bytes[0] == SYNC)
    ensures Free(d, bytes + rest) == Free(d.(buf := d.buf + bytes), rest)
    decreases |bytes|
  {
    hide Act;
    if bytes == [] {
      assert d.buf + [] == d.buf && [] + rest == rest;
    } else {
      var next := d.(buf := d.buf + [bytes[0]]);
      assert (bytes + rest)[1..] == bytes[1..] + rest;
      assert d.buf + bytes == next.buf + bytes[1..];
      Gathers(next, bytes[1..], rest);
    }
  }

  // Once aligned, packet after packet is processed and nothing discarded.
  lemma {:induction false} AlignedFlow(c: Core, packets: seq<Packet>)
    requires CoreValid(c) && forall p | p in packets :: p[0] == SYNC
    ensures var (last, outs) := ProcessAll(c, packets);
      Free(Demux([], true, c), Flatten(packets)) == Flow(Demux([], true, last), outs, 0)
    decreases |packets|
  {
    hide Process, HeaderOk;
    if packets != [] {
      var p := packets[0];
      ProcessValid(c, p);
      Gathers(Demux([], true, c), p, Flatten(packets[1..]));
      assert [] + p == p && p[..PKT] == p && p[PKT..] == [];
      AlignedFlow(Process(c, p).0, packets[1..]);
    }
  }

  lemma FlattenTwo(packets: seq<Packet>)
    requires |packets| >= 2
    ensures Flatten(packets[1..]) == packets[1] + Flatten(packets[2..])
    ensures Flatten(packets) == packets[0] + (packets[1] + Flatten(packets[2..]))
  {
    assert packets[1..][1..] == packets[2..];
  }

  // A candidate packet and its confirmation.
  lemma ConfirmedAct(c: Core, p: Packet, q: Packet, both: Bytes)
    requires CoreValid(c) && HeaderOk(p) && HeaderOk(q) && |both| == 2 * PKT && both[..PKT] == p && both[PKT..] == q
    ensures Act(Demux(both, false, c)) == Turn(Demux(q, true, Process(c, p).0), Process(c, p).1, 0)
  {
    hide Process, HeaderOk;
  }

  lemma FirstTwo(p: Packet, q: Packet, rest: Bytes)
    requires HeaderOk(p) && HeaderOk(q)
    ensures CoreValid(Process(NEW_CORE, p).0)
    ensures Free(NEW_DEMUX, p + (q + rest)) ==
      Then(Turn(NEW_DEMUX, Process(NEW_CORE, p).1, 0), Free(Demux([], true, Process(NEW_CORE, p).0), q + rest))
  {
    ProcessValid(NEW_CORE, p);
    var both: Bytes := p;
    both := both + q;
    assert p + (q + rest) == both + rest;
    assert both[0] == SYNC;
    Gathers(NEW_DEMUX, both, rest);
    assert [] + both == both;
    ConfirmedAct(NEW_CORE, p, q, both);
    Gathers(Demux([], true, Process(NEW_CORE, p).0), q, rest);
    assert [] + q == q;
    hide Process, HeaderOk, Act;
    assert Free(Demux(both, false, NEW_CORE), rest) ==
      Then(Act(Demux(both, false, NEW_CORE)), Free(Act(Demux(both, false, NEW_CORE)).d, rest));
  }

  // From the start, the first packet is confirmed by the second.
  lemma AllSynced(packets: seq<Packet>)
    requires packets != [] && forall p | p in packets :: HeaderOk(p)
    ensures HeaderOk(packets[0]) && (forall p | p in packets[1..] :: HeaderOk(p) && p[0] == SYNC)
  {
    assert forall p | p in packets[1..] :: p in packets;
  }

  lemma ProcessFirst(c: Core, packets: seq<Packet>)
    requires CoreValid(c) && packets != [] && CoreValid(Process(c, packets[0]).0)
    ensures var (last, outs) := ProcessAll(Process(c, packets[0]).0, packets[1..]);
      var first := Turn(NEW_DEMUX, Process(c, packets[0]).1, 0);
      && ProcessAll(c, packets).0 == last
      && Then(first, Flow(Demux([], true, last), outs, 0)) == Flow(Demux([], true, last), ProcessAll(c, packets).1, 0)
  {
    hide Process;
  }

  lemma FirstFlow(packets: seq<Packet>)
    requires |packets| >= 2 && forall p | p in packets :: HeaderOk(p)
    ensures var (last, outs) := ProcessAll(NEW_CORE, packets);
      Free(NEW_DEMUX, Flatten(packets)) == Flow(Demux([], true, last), outs, 0)
  {
    hide *;
    AllSynced(packets);
    AllSynced(packets[1..]);
    FlattenTwo(packets);
    FirstTwo(packets[0], packets[1], Flatten(packets[2..]));
    NewCore();
    ProcessFirst(NEW_CORE, packets);
    AlignedFlow(Process(NEW_CORE, packets[0]).0, packets[1..]);
  }

  lemma NewCore()
    ensures CoreValid(NEW_CORE)
  {}

  // ---- the round trip -----------------------------------------------------------------------------------

  lemma {:induction false} SentHeaders(t: Tables, s: Sender, packets: seq<Packet>)
    requires TablesOk(t) && Sends(t, s, packets)
    ensures forall p | p in packets :: HeaderOk(p)
    decreases |packets|
  {
    hide HeaderOk, Carry, Ignored, Repeated, InSequence;
    if packets != [] {
      SentHeaders(t, Send(t, s, packets[0]).value, packets[1..]);
      assert packets == [packets[0]] + packets[1..];
    }
  }

  lemma FirstSilent(t: Tables, packets: seq<Packet>)
    requires MuxOk(t) && Sends(t, NEW_SENDER, packets) && |packets| < 2
    ensures Pieces(t, NEW_SENDER, packets) == []
  {
    hide HeaderOk, Ignored;
    if |packets| == 1 {
      assert Pieces(t, Send(t, NEW_SENDER, packets[0]).value, packets[1..]) == [];
    }
  }

  lemma TooShort(packets: seq<Packet>)
    requires |packets| < 2 && forall p | p in packets :: HeaderOk(p)
    ensures Free(NEW_DEMUX, Flatten(packets)).outs == [] && Free(NEW_DEMUX, Flatten(packets)).dropped == 0
    ensures Free(NEW_DEMUX, Flatten(packets)).d.core == NEW_CORE
  {
    if packets == [] {
    } else {
      var p := packets[0];
      assert p in packets;
      assert Flatten(packets[1..]) == [] && p + [] == p;
      Gathers(NEW_DEMUX, p, []);
    }
  }

  lemma PiecesStart(cuts: seq<seq<Bytes>>, units: seq<Unit>)
    requires CutsOf(cuts, units)
    ensures AllPieces(cuts) != [] ==> AllPieces(cuts)[0].start
    ensures units != [] ==> AllPieces(cuts) != []
  {}

  /** The round trip. The sender cuts PES units (any headers, any elementary bytes) into packet payloads
      in any way, with any adaptation fields, after a PAT and a PMT that may recur at any time and span
      packets, among null packets, packets without payload, duplicates and packets of other PIDs, every
      PID counting on in sequence. The stream is fed to a new demuxer in chunks of any size. Then every
      feed returns 0, what the callback gets is exactly the units' elementary bytes in order, no counter
      error is seen, and the stream type is the one the PMT announced. */
  lemma MuxRoundTrip(t: Tables, units: seq<Unit>, cuts: seq<seq<Bytes>>, packets: seq<Packet>, chunks: seq<Bytes>)
    requires MuxOk(t) && CutsOf(cuts, units)
    requires Sends(t, NEW_SENDER, packets) && Pieces(t, NEW_SENDER, packets) == AllPieces(cuts)
    requires chunks != [] && Flatten(chunks) == Flatten(packets)
    ensures Feeds(NEW_DEMUX, chunks).ok
    ensures Flatten(Feeds(NEW_DEMUX, chunks).outs) == AllEs(units)
    ensures Feeds(NEW_DEMUX, chunks).d.core.ccErrors == 0
    ensures units != [] ==>
      Feeds(NEW_DEMUX, chunks).d.core.streamType == FirstAudioOf(t.streams).value.kind as int
  {
    SentHeaders(t, NEW_SENDER, packets);
    PiecesStart(cuts, units);
    YieldUnits([], cuts, units);
    hide Free, Feeds, Longest, Pieces, Sends, AllPieces, AllEs, MuxOk, CutsOf;
    if |packets| >= 2 {
      FirstFlow(packets);
      PacketsYield(t, NEW_SENDER, NEW_CORE, packets, []);
    } else {
      FirstSilent(t, packets);
      TooShort(packets);
    }
    LongestAtMost(NEW_DEMUX, 0, Flatten(chunks));
    FeedsSucceed(NEW_DEMUX, chunks);
    FeedsAreFree(NEW_DEMUX, chunks);
  }

  // The k-th program and stream of the tables are the ones followed, told by their numbers.
  predicate Names(t: Tables, i: nat, k: nat)
    requires TablesOk(t)
  {
    && i < |t.programs| && t.programs[i].number != 0 && (forall j | 0 <= j < i :: t.programs[j].number == 0)
    && k < |t.streams| && t.streams[k].kind in {3, 4, 15}
    && (forall j | 0 <= j < k :: t.streams[j].kind !in {3, 4, 15})
    && t.programs[i].pid != 0 && t.streams[k].pid != 0 && t.streams[k].pid != t.programs[i].pid
  }

  lemma {:induction false} FirstProgramIs(es: seq<Program>, i: nat)
    requires i < |es| && es[i].number != 0 && forall j | 0 <= j < i :: es[j].number == 0
    ensures FirstOf(es) == Some(es[i].pid)
  {
    if i > 0 { FirstProgramIs(es[1..], i - 1); }
  }

  lemma NamedMux(t: Tables, i: nat, k: nat)
    requires TablesOk(t) && Names(t, i, k)
    ensures MuxOk(t) && PmtPid(t) == t.programs[i].pid && AudioPid(t) == t.streams[k].pid
    ensures FirstAudioOf(t.streams) == Some(Stream(t.streams[k].kind as int, t.streams[k].pid))
  {
    FirstProgramIs(t.programs, i);
    FirstAudioIs(t.streams, k);
    hide FirstOf, FirstAudioOf, TablesOk;
  }

  /** The round trip in the numbers of the tables: a stream of type 3, 4 or 15 that no other of these types
      precedes comes out whole, under its type. */
  lemma RoundTripByType(t: Tables, i: nat, k: nat, units: seq<Unit>, cuts: seq<seq<Bytes>>, packets: seq<Packet>,
                        chunks: seq<Bytes>)
    requires TablesOk(t) && Names(t, i, k) && CutsOf(cuts, units)
    requires Sends(t, NEW_SENDER, packets) && Pieces(t, NEW_SENDER, packets) == AllPieces(cuts)
    requires chunks != [] && Flatten(chunks) == Flatten(packets)
    ensures Feeds(NEW_DEMUX, chunks).ok
    ensures Flatten(Feeds(NEW_DEMUX, chunks).outs) == AllEs(units)
    ensures Feeds(NEW_DEMUX, chunks).d.core.ccErrors == 0
    ensures units != [] ==> Feeds(NEW_DEMUX, chunks).d.core.streamType == t.streams[k].kind as int
  {
    hide *;
    NamedMux(t, i, k);
    MuxRoundTrip(t, units, cuts, packets, chunks);
  }

  /** Packets as they are built do get sent: any payload, with any adaptation field that leaves it just
      room, is a piece once the tables are out. */
  lemma BuiltPacketsAreSent(t: Tables, s: Sender, start: bool, adaptation: Option<Bytes>, payload: Bytes)
    requires MuxOk(t) && s.phase.Named? && AudioPid(t) != NULL_PID && s.cc[AudioPid(t)] < 16
    requires payload != [] && Room(adaptation) + |payload| == PKT - 4
    ensures var counter := (s.cc[AudioPid(t)] + 1) % 16;
      var p := Build(AudioPid(t), start, counter, adaptation, payload);
      && Send(t, s, p) == Some(s.(cc := s.cc[AudioPid(t) := counter]))
      && IsPiece(t, s, p) && Piece(UnitStart(p), Payload(p)) == Piece(start, payload)
  {
    var counter := (s.cc[AudioPid(t)] + 1) % 16;
    BuildReadsBack(AudioPid(t), start, counter, adaptation, payload);
    var p := Build(AudioPid(t), start, counter, adaptation, payload);
    assert !Flagged(p);
    assert PayloadAt(p) < PKT;
    hide Build, TablesOk, FirstOf, FirstAudioOf, PidOf, CounterOf, UnitStart, Payload, PayloadAt, Scrambled, HasPayload;
  }
}
