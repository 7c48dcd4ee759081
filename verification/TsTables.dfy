/** The sender's side of src/ts_demux.c: program tables and packets built as ISO/IEC 13818-1 lays them
    out, and what the demuxer reads back from them. */
module TsTables {
  import opened Prelude
  import opened TsPacket

  // ---- packets ------------------------------------------------------------------------------------

  // How many bytes of a packet an adaptation field takes, with its length byte.
  function Room(adaptation: Option<Bytes>): nat {
    if adaptation.Some? then 1 + |adaptation.value| else 0
  }

  // A packet with payload (section 2.4.3.2).
  function Build(pid: Pid, start: bool, counter: nat, adaptation: Option<Bytes>, payload: Bytes): Packet
    requires counter < 16 && payload != [] && Room(adaptation) + |payload| == PKT - 4
  {
    [0x47, ((if start then 64 else 0) + pid / 256) as byte, (pid % 256) as byte,
     ((if adaptation.Some? then 48 else 16) + counter) as byte] +
    (if adaptation.Some? then [|adaptation.value| as byte] + adaptation.value else []) + payload
  }

  /** Every field of a built packet is read back. */
  lemma BuildReadsBack(pid: Pid, start: bool, counter: nat, adaptation: Option<Bytes>, payload: Bytes)
    requires counter < 16 && payload != [] && Room(adaptation) + |payload| == PKT - 4
    ensures var p := Build(pid, start, counter, adaptation, payload);
      && PidOf(p) == pid && UnitStart(p) == start && CounterOf(p) == counter
      && HeaderOk(p) && HasPayload(p) && HasAdaptation(p) == adaptation.Some? && !Scrambled(p)
      && Payload(p) == payload
      && (Signalled(p) <==> adaptation.Some? && adaptation.value != [] && adaptation.value[0] >= 128)
      && (Ignored(p) <==> pid == 8191)
  {
    var p := Build(pid, start, counter, adaptation, payload);
    assert p[1] as int == (if start then 64 else 0) + pid / 256;
    assert p[2] as int == pid % 256;
    assert p[3] as int == (if adaptation.Some? then 48 else 16) + counter;
    if adaptation.Some? {
      assert p[4] as int == |adaptation.value|;
      if adaptation.value != [] { assert p[5] == adaptation.value[0]; }
    }
    assert p[PKT - |payload|..] == payload;
  }

  /** Passed over are exactly packets with the error bit, null packets, scrambled ones and ones without payload. */
  lemma IgnoredIff(c: Core, p: Packet)
    requires CoreValid(c)
    ensures Ignored(p) <==> p[1] >= 128 || (p[1] % 32 == 31 && p[2] == 255) || p[3] >= 64 || p[3] as int / 16 % 2 == 0
    ensures Ignored(p) ==> Process(c, p) == (c, None)
  {
    hide Deliver, Counted;
  }

  // ---- the PAT (section 2.4.4.3) ---------------------------------------------------------------------

  datatype Program = Program(number: nat, pid: Pid)

  predicate ProgramOk(e: Program) {
    e.number < 0x1_0000
  }

  function ProgramBytes(e: Program): (r: Bytes)
    requires ProgramOk(e)
    ensures |r| == 4
  {
    [(e.number / 256) as byte, (e.number % 256) as byte, (224 + e.pid / 256) as byte, (e.pid % 256) as byte]
  }

  function ProgramsBytes(es: seq<Program>): (r: Bytes)
    requires forall e | e in es :: ProgramOk(e)
    ensures |r| == 4 * |es|
  {
    if es == [] then [] else ProgramBytes(es[0]) + ProgramsBytes(es[1..])
  }

  // The first program that is not the network table.
  function FirstOf(es: seq<Program>): Option<Pid> {
    if es == [] then None else if es[0].number != 0 then Some(es[0].pid) else FirstOf(es[1..])
  }

  // A section: its table id, its length, what it holds, and its CRC.
  function SectionBytes(table: byte, body: Bytes, crc: Bytes): (r: Bytes)
    requires |body| + |crc| <= 1021
    ensures |r| == 3 + |body| + |crc|
  {
    [table, (176 + (|body| + |crc|) / 256) as byte, ((|body| + |crc|) % 256) as byte] + body + crc
  }

  lemma SectionLength(table: byte, body: Bytes, crc: Bytes, tail: Bytes)
    requires |body| + |crc| <= 1021
    ensures SecTotal(SectionBytes(table, body, crc) + tail) == |SectionBytes(table, body, crc)|
  {}

  lemma {:induction false} ProgramFound(before: Bytes, es: seq<Program>, after: Bytes)
    requires (forall e | e in es :: ProgramOk(e)) && |after| >= 4
    ensures var s := before + ProgramsBytes(es) + after;
      FirstProgram(s, |before|, |before| + 4 * |es| + 4) == FirstOf(es)
    decreases |es|
  {
    var s := before + ProgramsBytes(es) + after;
    if es != [] {
      var head := ProgramBytes(es[0]);
      assert s == before + head + ProgramsBytes(es[1..]) + after;
      assert s[|before|..|before| + 4] == head;
      assert forall k | 0 <= k < 4 :: s[|before| + k] == head[k];
      ProgramFound(before + head, es[1..], after);
    }
  }

  // ---- the PMT (section 2.4.4.8) ---------------------------------------------------------------------

  datatype Elementary = Elementary(kind: byte, pid: Pid, info: Bytes)

  predicate ElementaryOk(e: Elementary) {
    |e.info| < 4096
  }

  function ElementaryBytes(e: Elementary): (r: Bytes)
    requires ElementaryOk(e)
    ensures |r| == 5 + |e.info|
  {
    [e.kind, (224 + e.pid / 256) as byte, (e.pid % 256) as byte,
     (240 + |e.info| / 256) as byte, (|e.info| % 256) as byte] + e.info
  }

  function ElementariesBytes(es: seq<Elementary>): Bytes
    requires forall e | e in es :: ElementaryOk(e)
  {
    if es == [] then [] else ElementaryBytes(es[0]) + ElementariesBytes(es[1..])
  }

  // The stream types that have a decoder (table 2-34): MPEG-1 audio, MPEG-2 audio, and AAC with ADTS.
  predicate Decodable(kind: byte) {
    kind == 3 || kind == 4 || kind == 15
  }

  lemma KindsAgree(kind: byte)
    ensures IsAudio(kind as int) <==> Decodable(kind)
  {}

  // The first stream this player can decode.
  function FirstAudioOf(es: seq<Elementary>): Option<Stream> {
    if es == [] then None
    else if Decodable(es[0].kind) then Some(Stream(es[0].kind as int, es[0].pid))
    else FirstAudioOf(es[1..])
  }

  lemma PidField(pid: Pid)
    ensures Field((224 + pid / 256) as byte, 32, (pid % 256) as byte) == pid
  {}

  lemma LengthField(n: nat, high: nat)
    requires n < 4096 && high % 16 == 0 && high <= 240
    ensures Field((high + n / 256) as byte, 16, (n % 256) as byte) == n
  {}

  lemma EntryFound(before: Bytes, e: Elementary, rest: Bytes)
    requires ElementaryOk(e)
    ensures var s := before + ElementaryBytes(e) + rest;
      && |s| >= |before| + 5 && s[|before|] == e.kind
      && s[|before| + 1] == (224 + e.pid / 256) as byte && s[|before| + 2] == (e.pid % 256) as byte
      && s[|before| + 3] == (240 + |e.info| / 256) as byte && s[|before| + 4] == (|e.info| % 256) as byte
  {
    var s, head := before + ElementaryBytes(e) + rest, ElementaryBytes(e);
    assert s[|before|..|before| + |head|] == head;
  }

  lemma Regroup(a: Bytes, b: Bytes, c: Bytes, d: Bytes)
    ensures a + (b + c) + d == a + b + c + d && a + (b + c) + d == a + b + (c + d)
  {}

  lemma {:induction false} AudioFound(before: Bytes, es: seq<Elementary>, after: Bytes)
    requires forall e | e in es :: ElementaryOk(e)
    ensures var s := before + ElementariesBytes(es) + after;
      FirstAudio(s, |before|, |before| + |ElementariesBytes(es)|) == FirstAudioOf(es)
    decreases |es|
  {
    var s := before + ElementariesBytes(es) + after;
    if es != [] {
      var head := ElementaryBytes(es[0]);
      var e := es[0];
      assert ElementariesBytes(es) == head + ElementariesBytes(es[1..]);
      hide Field, IsAudio, ElementaryBytes, ElementariesBytes;
      Regroup(before, head, ElementariesBytes(es[1..]), after);
      EntryFound(before, e, ElementariesBytes(es[1..]) + after);
      KindsAgree(e.kind);
      PidField(e.pid);
      LengthField(|e.info|, 240);
      AudioFound(before + head, es[1..], after);
    }
  }

  // ---- both -----------------------------------------------------------------------------------------------

  // The tables of one stream: the fixed bytes of either section, and what they list.
  datatype Tables = Tables(patFixed: Bytes, programs: seq<Program>, patCrc: Bytes,
                           pmtFixed: Bytes, info: Bytes, streams: seq<Elementary>, pmtCrc: Bytes)

  predicate TablesOk(t: Tables) {
    && |t.patFixed| == 5 && |t.patCrc| == 4 && |t.pmtFixed| == 7 && |t.pmtCrc| == 4
    && (forall e | e in t.programs :: ProgramOk(e))
    && (forall e | e in t.streams :: ElementaryOk(e))
    && |t.info| < 4096
    && 9 + 4 * |t.programs| <= 1021
    && 13 + |t.info| + |ElementariesBytes(t.streams)| <= 1021
  }

  function PatBytes(t: Tables): (r: Bytes)
    requires TablesOk(t)
    ensures |r| == 12 + 4 * |t.programs|
  {
    SectionBytes(0x00, t.patFixed + ProgramsBytes(t.programs), t.patCrc)
  }

  function PmtBytes(t: Tables): (r: Bytes)
    requires TablesOk(t)
    ensures |r| == 16 + |t.info| + |ElementariesBytes(t.streams)|
  {
    SectionBytes(0x02,
                 t.pmtFixed + [(240 + |t.info| / 256) as byte, (|t.info| % 256) as byte] + t.info +
                 ElementariesBytes(t.streams), t.pmtCrc)
  }

  function TableBytes(t: Tables, isPat: bool): (r: Bytes)
    requires TablesOk(t)
    ensures 12 <= |r| <= SEC_MAX
  {
    if isPat then PatBytes(t) else PmtBytes(t)
  }

  /** What parse_pat takes from a PAT is its first real program. */
  lemma PatReadsBack(t: Tables, tail: Bytes, c: Core)
    requires TablesOk(t)
    ensures var s := PatBytes(t) + tail;
      && SecTotal(s) == |PatBytes(t)|
      && ParsePat(c, s, SecTotal(s)) ==
           match FirstOf(t.programs)
           case None => c
           case Some(pid) => if pid == c.pmtPid then c else c.(pmtPid := pid, pmt := NO_SECTION)
  {
    var n := 9 + 4 * |t.programs|;
    var before := [0x00, (176 + n / 256) as byte, (n % 256) as byte] + t.patFixed;
    assert PatBytes(t) + tail == before + ProgramsBytes(t.programs) + (t.patCrc + tail);
    SectionLength(0x00, t.patFixed + ProgramsBytes(t.programs), t.patCrc, tail);
    ProgramFound(before, t.programs, t.patCrc + tail);
  }

  lemma {:induction false} FirstAudioIs(es: seq<Elementary>, k: nat)
    requires k <= |es| && (forall j | 0 <= j < k :: !Decodable(es[j].kind)) && (k < |es| ==> Decodable(es[k].kind))
    ensures FirstAudioOf(es) == if k == |es| then None else Some(Stream(es[k].kind as int, es[k].pid))
  {
    if k > 0 { FirstAudioIs(es[1..], k - 1); }
  }

  /** The first stream of type 3, 4 or 15 is the one: streams of any other type before it are passed over, and
      without one of the three the demuxer stays as it is. */
  lemma PmtNames(t: Tables, tail: Bytes, c: Core, k: nat)
    requires TablesOk(t) && k <= |t.streams|
    requires forall j | 0 <= j < k :: t.streams[j].kind !in {3, 4, 15}
    requires k < |t.streams| ==> t.streams[k].kind in {3, 4, 15}
    ensures var s := PmtBytes(t) + tail;
      ParsePmt(c, s, SecTotal(s)) ==
        if k == |t.streams| then c
        else
          var e := t.streams[k];
          c.(audPid := e.pid, streamType := e.kind as int, pes := if e.pid == c.audPid then c.pes else Idle)
  {
    FirstAudioIs(t.streams, k);
    hide ParsePmt, SecTotal, PmtBytes, TablesOk, FirstAudioOf;
    PmtReadsBack(t, tail, c);
  }

  /** What parse_pmt takes from a PMT is its first stream of a kind this player decodes. */
  lemma PmtReadsBack(t: Tables, tail: Bytes, c: Core)
    requires TablesOk(t)
    ensures var s := PmtBytes(t) + tail;
      && SecTotal(s) == |PmtBytes(t)|
      && ParsePmt(c, s, SecTotal(s)) ==
           match FirstAudioOf(t.streams)
           case None => c
           case Some(a) =>
             c.(audPid := a.pid, streamType := a.kind, pes := if a.pid == c.audPid then c.pes else Idle)
  {
    hide FirstAudio, FirstAudioOf, ElementariesBytes;
    var fixed := t.pmtFixed + [(240 + |t.info| / 256) as byte, (|t.info| % 256) as byte];
    var body := fixed + t.info + ElementariesBytes(t.streams);
    var n := |body| + 4;
    var before := [0x02, (176 + n / 256) as byte, (n % 256) as byte] + fixed + t.info;
    assert PmtBytes(t) + tail == before + ElementariesBytes(t.streams) + (t.pmtCrc + tail);
    SectionLength(0x02, body, t.pmtCrc, tail);
    AudioFound(before, t.streams, t.pmtCrc + tail);
    LengthField(|t.info|, 240);
    assert before[10] == fixed[7] && before[11] == fixed[8];
  }
}
