/** src/ts_demux.c, from process_pkt down: what one 188-byte transport packet does to the demuxer.
    Section numbers are those of ISO/IEC 13818-1. */
module TsPacket {
  import opened Prelude

  const PKT := 188
  const NPID := 8192
  const NULL_PID := 0x1FFF
  const SEC_MAX := 1024

  type Packet = p: Bytes | |p| == PKT witness Zeros(PKT)

  function Zeros(n: nat): (r: Bytes)
    ensures |r| == n
  {
    if n == 0 then [] else Zeros(n - 1) + [0]
  }

  type Pid = x: int | 0 <= x < NPID

  // The last continuity counter seen on each PID, -1 for none.
  type Counters = c: seq<int> | |c| == NPID witness NoneSeen(NPID)

  function NoneSeen(n: nat): (r: seq<int>)
    ensures |r| == n && forall i | 0 <= i < n :: r[i] == -1
  {
    if n == 0 then [] else NoneSeen(n - 1) + [-1]
  }

  const NO_COUNTERS: Counters := NoneSeen(NPID)

  // The big-endian value of the low bits of two bytes.
  function Field(hi: byte, bits: int, lo: byte): int
    requires bits > 0
  {
    (hi as int % bits) * 256 + lo as int
  }

  // ---- packet headers (section 2.4.3.2) ------------------------------------------------------------

  function PidOf(p: Packet): Pid {
    Field(p[1], 32, p[2])
  }

  predicate Flagged(p: Packet) { p[1] as int / 128 == 1 }

  predicate UnitStart(p: Packet) { p[1] as int / 64 % 2 == 1 }

  predicate Scrambled(p: Packet) { p[3] as int / 64 != 0 }

  predicate HasAdaptation(p: Packet) { p[3] as int / 32 % 2 == 1 }

  predicate HasPayload(p: Packet) { p[3] as int / 16 % 2 == 1 }

  function CounterOf(p: Packet): (r: int)
    ensures 0 <= r < 16
  {
    p[3] as int % 16
  }

  // Where the payload starts; PKT or more when the adaptation field leaves none.
  function PayloadAt(p: Packet): nat {
    if HasAdaptation(p) then 5 + p[4] as int else 4
  }

  function Payload(p: Packet): Bytes {
    if PayloadAt(p) < PKT then p[PayloadAt(p)..] else []
  }

  // hdr_ok: what a packet confirming the alignment has to look like
  predicate HeaderOk(p: Packet) {
    p[0] == 0x47 && !Flagged(p) && (HasPayload(p) || HasAdaptation(p))
  }

  // ---- sections (section 2.4.4) ------------------------------------------------------------------------

  datatype Section = Section(open: bool, buf: Bytes)

  const NO_SECTION := Section(false, [])

  function SecTotal(buf: Bytes): nat {
    if |buf| < 3 then 0 else 3 + Field(buf[1], 16, buf[2])
  }

  // sec_push: the section with p added, and whether it is now whole.
  function SecPush(s: Section, p: Bytes): (Section, bool)
    requires |s.buf| <= SEC_MAX
  {
    if !s.open then (s, false)
    else
      var n := if |p| > SEC_MAX - |s.buf| then SEC_MAX - |s.buf| else |p|;
      var buf := s.buf + p[..n];
      var total := SecTotal(buf);
      if total > SEC_MAX then (NO_SECTION, false)
      else (Section(true, buf), total != 0 && |buf| >= total)
  }

  // ---- the demuxer below its framing ---------------------------------------------------------------------

  // The four states of pes_feed, with the header bytes and the count that matter in them.
  datatype Pes = Idle | Header(got: Bytes) | Skip(left: nat) | Data

  datatype Core = Core(pmtPid: int, audPid: int, streamType: int, pat: Section, pmt: Section,
                       pes: Pes, cc: Counters, ccErrors: nat)

  const NEW_CORE := Core(-1, -1, 0, NO_SECTION, NO_SECTION, Idle, NO_COUNTERS, 0)

  // ts_demux_reset keeps the count of lost packets only.
  function CoreReset(c: Core): Core {
    NEW_CORE.(ccErrors := c.ccErrors)
  }

  predicate CoreValid(c: Core) {
    |c.pat.buf| <= SEC_MAX && |c.pmt.buf| <= SEC_MAX && (c.pes.Header? ==> |c.pes.got| < 9)
  }

  // ---- tables --------------------------------------------------------------------------------------------

  // The first program of a PAT that is not the network table, from entry i on.
  function FirstProgram(s: Bytes, i: nat, total: nat): Option<Pid>
    requires total <= |s|
    decreases total - i
  {
    if i + 8 > total then None
    else if s[i] != 0 || s[i + 1] != 0 then Some(Field(s[i + 2], 32, s[i + 3]))
    else FirstProgram(s, i + 4, total)
  }

  function ParsePat(c: Core, s: Bytes, total: nat): Core
    requires total <= |s|
  {
    if total < 12 || s[0] != 0x00 then c
    else
      match FirstProgram(s, 8, total)
      case None => c
      case Some(pid) => if pid == c.pmtPid then c else c.(pmtPid := pid, pmt := NO_SECTION)
  }

  // MPEG-1 and MPEG-2 audio, and ADTS AAC.
  predicate IsAudio(streamType: int) {
    streamType == 0x03 || streamType == 0x04 || streamType == 0x0F
  }

  datatype Stream = Stream(kind: int, pid: Pid)

  // The first audio stream of a PMT, from entry i on.
  function FirstAudio(s: Bytes, i: nat, end: nat): Option<Stream>
    requires end <= |s|
    decreases end - i
  {
    if i + 5 > end then None
    else if IsAudio(s[i] as int) then Some(Stream(s[i] as int, Field(s[i + 1], 32, s[i + 2])))
    else FirstAudio(s, i + 5 + Field(s[i + 3], 16, s[i + 4]), end)
  }

  function ParsePmt(c: Core, s: Bytes, total: nat): Core
    requires total <= |s|
  {
    if total < 16 || s[0] != 0x02 then c
    else
      match FirstAudio(s, 12 + Field(s[10], 16, s[11]), total - 4)
      case None => c
      case Some(a) =>
        c.(audPid := a.pid, streamType := a.kind, pes := if a.pid == c.audPid then c.pes else Idle)
  }

  function SectionOf(c: Core, isPat: bool): Section {
    if isPat then c.pat else c.pmt
  }

  function WithSection(c: Core, isPat: bool, s: Section): Core {
    if isPat then c.(pat := s) else c.(pmt := s)
  }

  // sec_push, and psi_done for a section made whole
  function PsiPush(c: Core, isPat: bool, p: Bytes): Core
    requires CoreValid(c)
  {
    var (s, whole) := SecPush(SectionOf(c, isPat), p);
    var c' := WithSection(c, isPat, s);
    if !whole then c'
    else
      WithSection(if isPat then ParsePat(c', s.buf, SecTotal(s.buf)) else ParsePmt(c', s.buf, SecTotal(s.buf)),
                  isPat, NO_SECTION)
  }

  function PsiFeed(c: Core, isPat: bool, p: Bytes, start: bool): Core
    requires CoreValid(c)
  {
    if !start then PsiPush(c, isPat, p)
    else if p == [] then c
    else
      var pointer := p[0] as int;
      if pointer > |p| - 1 then WithSection(c, isPat, NO_SECTION)
      else
        var c' := if SectionOf(c, isPat).open then PsiPush(c, isPat, p[1..1 + pointer]) else c;
        PsiPush(WithSection(c', isPat, Section(true, [])), isPat, p[1 + pointer..])
  }

  // ---- PES packets (section 2.4.3.6) -------------------------------------------------------------------------

  predicate AudioHeader(h: Bytes)
    requires |h| >= 9
  {
    h[0] == 0 && h[1] == 0 && h[2] == 1 && 0xC0 <= h[3] <= 0xDF
  }

  // pes_feed's loop: the new state, and what the callback gets if it is called.
  function PesRun(pes: Pes, p: Bytes): (Pes, Option<Bytes>)
    requires pes.Header? ==> |pes.got| < 9
    decreases |p|, if pes.Header? then 2 else if pes.Skip? then 1 else 0
  {
    if p == [] then (pes, None)
    else
      match pes
      case Idle => (Idle, None)
      case Header(got) =>
        var want := if 9 - |got| > |p| then |p| else 9 - |got|;
        var h := got + p[..want];
        if |h| < 9 then (Header(h), None)
        else if !AudioHeader(h) then (Idle, None)
        else PesRun(Skip(h[8] as int), p[want..])
      case Skip(left) =>
        var k := if left < |p| then left else |p|;
        if left - k > 0 then (Skip(left - k), None) else PesRun(Data, p[k..])
      case Data => (Data, Some(p))
  }

  function PesFeed(c: Core, p: Bytes, start: bool): (Core, Option<Bytes>)
    requires CoreValid(c)
  {
    var (pes, out) := PesRun(if start then Header([]) else c.pes, p);
    (c.(pes := pes), out)
  }

  // ---- a packet --------------------------------------------------------------------------------------------------

  // Packets process_pkt passes over before it looks at the continuity counter.
  predicate Ignored(p: Packet) {
    Flagged(p) || PidOf(p) == NULL_PID || Scrambled(p) || !HasPayload(p)
  }

  predicate Duplicate(c: Core, p: Packet) {
    c.cc[PidOf(p)] >= 0 && CounterOf(p) == c.cc[PidOf(p)]
  }

  predicate Gap(c: Core, p: Packet) {
    c.cc[PidOf(p)] >= 0 && CounterOf(p) != c.cc[PidOf(p)] && CounterOf(p) != (c.cc[PidOf(p)] + 1) % 16
  }

  predicate Signalled(p: Packet) {
    HasAdaptation(p) && p[4] != 0 && p[5] as int / 128 == 1
  }

  // What a gap in a PID's counters does: nothing is continued across it.
  function Broken(c: Core, p: Packet): Core {
    var c' := c.(ccErrors := if Signalled(p) then c.ccErrors else c.ccErrors + 1, pes := Idle);
    if PidOf(p) == 0 then c'.(pat := NO_SECTION)
    else if PidOf(p) == c.pmtPid then c'.(pmt := NO_SECTION)
    else c'
  }

  // The counter of an accepted packet becomes its PID's.
  function Counted(c: Core, p: Packet): Core {
    (if Gap(c, p) then Broken(c, p) else c).(cc := c.cc[PidOf(p) := CounterOf(p)])
  }

  // The payload goes where its PID says.
  function Deliver(c: Core, p: Packet): (Core, Option<Bytes>)
    requires CoreValid(c)
  {
    if PayloadAt(p) >= PKT then (c, None)
    else if PidOf(p) == 0 then (PsiFeed(c, true, Payload(p), UnitStart(p)), None)
    else if PidOf(p) == c.pmtPid then (PsiFeed(c, false, Payload(p), UnitStart(p)), None)
    else if PidOf(p) == c.audPid then PesFeed(c, Payload(p), UnitStart(p))
    else (c, None)
  }

  function Process(c: Core, p: Packet): (r: (Core, Option<Bytes>))
    requires CoreValid(c)
  {
    if Ignored(p) || Duplicate(c, p) then (c, None)
    else Deliver(Counted(c, p), p)
  }

  // ---- what every packet keeps ----------------------------------------------------------------------------------------

  lemma {:induction false} PesRunValid(pes: Pes, p: Bytes)
    requires pes.Header? ==> |pes.got| < 9
    ensures var r := PesRun(pes, p).0; r.Header? ==> |r.got| < 9
    ensures PesRun(pes, p).1.Some? ==> PesRun(pes, p).1.value != []
    decreases |p|, if pes.Header? then 2 else if pes.Skip? then 1 else 0
  {
    if p != [] {
      match pes
      case Header(got) =>
        var want := if 9 - |got| > |p| then |p| else 9 - |got|;
        var h := got + p[..want];
        if |h| == 9 && AudioHeader(h) { PesRunValid(Skip(h[8] as int), p[want..]); }
      case Skip(left) => if left <= |p| { PesRunValid(Data, p[left..]); }
      case _ =>
    }
  }

  lemma PsiPushValid(c: Core, isPat: bool, p: Bytes)
    requires CoreValid(c)
    ensures CoreValid(PsiPush(c, isPat, p)) && PsiPush(c, isPat, p).cc == c.cc
  {
    hide FirstProgram, FirstAudio;
  }

  lemma PsiFeedValid(c: Core, isPat: bool, p: Bytes, start: bool)
    requires CoreValid(c)
    ensures CoreValid(PsiFeed(c, isPat, p, start)) && PsiFeed(c, isPat, p, start).cc == c.cc
  {
    hide PsiPush;
    if !start {
      PsiPushValid(c, isPat, p);
    } else if p != [] && p[0] as int <= |p| - 1 {
      var pointer := p[0] as int;
      PsiPushValid(c, isPat, p[1..1 + pointer]);
      var c' := if SectionOf(c, isPat).open then PsiPush(c, isPat, p[1..1 + pointer]) else c;
      PsiPushValid(WithSection(c', isPat, Section(true, [])), isPat, p[1 + pointer..]);
    }
  }

  lemma DeliverValid(c: Core, p: Packet)
    requires CoreValid(c)
    ensures CoreValid(Deliver(c, p).0) && Deliver(c, p).0.cc == c.cc
    ensures Deliver(c, p).1.Some? ==> Deliver(c, p).1.value != []
  {
    hide PsiFeed, PesRun;
    PsiFeedValid(c, true, Payload(p), UnitStart(p));
    PsiFeedValid(c, false, Payload(p), UnitStart(p));
    PesRunValid(if UnitStart(p) then Header([]) else c.pes, Payload(p));
  }

  lemma ProcessValid(c: Core, p: Packet)
    requires CoreValid(c)
    ensures CoreValid(Process(c, p).0)
    ensures Process(c, p).1.Some? ==> Process(c, p).1.value != []
  {
    hide Deliver;
    DeliverValid(Counted(c, p), p);
  }
}
