/** src/ts_demux.c itself: the demuxer as an object updated in place, proved against the machine over
    single bytes of TsFrame and the packet function of TsPacket. */
module TsDemux {
  import opened Prelude
  import opened TsPacket
  import F = TsFrame

  datatype PesState = PesIdle | PesHdr | PesSkip | PesData

  class TsDemux {
    const buf: array<byte>
    var have: nat
    var synced: bool
    var junk: nat
    var pmtPid: int
    var audPid: int
    var streamType: int
    var pat: Section
    var pmt: Section
    var pesState: PesState
    var pesHdr: Bytes
    var pesSkip: nat
    const cc: array<int>
    var ccErrors: nat

    ghost predicate Shaped()
      reads this
    {
      && buf.Length == 2 * PKT && cc.Length == NPID
      && |pat.buf| <= SEC_MAX && |pmt.buf| <= SEC_MAX
      && (pesState.PesHdr? ==> |pesHdr| < 9)
    }

    ghost predicate Valid()
      reads this
    {
      Shaped() && have <= F.Want(synced)
    }

    // Between feeds: a candidate and its confirmation are looked at as soon as they are there.
    ghost predicate Ready()
      reads this
    {
      Valid() && (!synced ==> have < 2 * PKT)
    }

    // The state of pes_feed; the header bytes and the count are dead where the state does not use them.
    ghost function PesView(): Pes
      reads this
    {
      match pesState
      case PesIdle => Idle
      case PesHdr => Header(pesHdr)
      case PesSkip => Skip(pesSkip)
      case PesData => Data
    }

    ghost function CoreView(): (c: Core)
      requires Shaped()
      reads this, cc
      ensures CoreValid(c)
    {
      Core(pmtPid, audPid, streamType, pat, pmt, PesView(), cc[..], ccErrors)
    }

    ghost function View(): (d: F.Demux)
      requires Valid()
      reads this, buf, cc
      ensures F.Valid(d)
    {
      F.Demux(buf[..have], synced, CoreView())
    }

    // ts_demux_open
    constructor ()
      ensures Ready() && fresh(buf) && fresh(cc)
      ensures View() == F.NEW_DEMUX
    {
      buf := new byte[2 * PKT];
      have, synced, junk := 0, false, 0;
      pmtPid, audPid, streamType := -1, -1, 0;
      pat, pmt := NO_SECTION, NO_SECTION;
      pesState, pesHdr, pesSkip := PesIdle, [], 0;
      var table := new int[NPID](i => -1);
      cc := table;
      ccErrors := 0;
      new;
      assert cc[..] == NO_COUNTERS;
    }

    // ts_demux_reset
    method Reset()
      requires Shaped()
      modifies this, cc
      ensures Ready() && junk == 0
      ensures View().buf == [] && !View().synced && CoreView() == CoreReset(old(CoreView()))
    {
      hide TsPacket.NoneSeen;
      have, synced, junk := 0, false, 0;
      pmtPid, audPid, streamType := -1, -1, 0;
      pat, pmt := NO_SECTION, NO_SECTION;
      pesState, pesHdr, pesSkip := PesIdle, [], 0;
      ClearCounters();
      assert PesView() == Idle && cc[..] == NO_COUNTERS;
    }

    method ClearCounters()
      requires cc.Length == NPID
      modifies cc
      ensures cc[..] == NO_COUNTERS
    {
      for i := 0 to NPID
        invariant forall k | 0 <= k < i :: cc[k] == -1
      {
        cc[i] := -1;
      }
    }

    // ---- sections ---------------------------------------------------------------------------------

    // parse_pat
    method ParsePat(s: Bytes, total: nat)
      requires Shaped() && total <= |s|
      modifies `pmtPid, `pmt
      ensures Shaped() && CoreView() == TsPacket.ParsePat(old(CoreView()), s, total)
    {
      if total < 12 || s[0] != 0x00 { return; }
      var i := 8;
      while i + 4 <= total - 4
        invariant Shaped() && CoreView() == old(CoreView())
        invariant FirstProgram(s, 8, total) == FirstProgram(s, i, total)
        decreases total - i
      {
        var prog := s[i] as int * 256 + s[i + 1] as int;
        var pid := Field(s[i + 2], 32, s[i + 3]);
        if prog != 0 {
          if pid != pmtPid {
            pmtPid := pid;
            pmt := NO_SECTION;
          }
          return;
        }
        i := i + 4;
      }
    }

    // parse_pmt
    method ParsePmt(s: Bytes, total: nat)
      requires Shaped() && total <= |s|
      modifies `audPid, `streamType, `pesState, `pesHdr, `pesSkip
      ensures Shaped() && CoreView() == TsPacket.ParsePmt(old(CoreView()), s, total)
    {
      if total < 16 || s[0] != 0x02 { return; }
      var i := 12 + Field(s[10], 16, s[11]);
      var end := total - 4;
      while i + 5 <= end
        invariant i >= 0 && Shaped() && CoreView() == old(CoreView())
        invariant FirstAudio(s, 12 + Field(s[10], 16, s[11]), end) == FirstAudio(s, i, end)
        decreases end - i
      {
        var kind := s[i] as int;
        var pid := Field(s[i + 1], 32, s[i + 2]);
        if IsAudio(kind) {
          if pid != audPid {
            audPid := pid;
            pesState, pesHdr, pesSkip := PesIdle, [], 0;
          }
          streamType := kind;
          return;
        }
        i := i + 5 + Field(s[i + 3], 16, s[i + 4]);
      }
    }

    // sec_push, and psi_done once the section is whole
    method PsiPush(isPat: bool, p: Bytes)
      requires Shaped()
      modifies `pmtPid, `audPid, `streamType, `pat, `pmt, `pesState, `pesHdr, `pesSkip
      ensures Shaped() && CoreView() == TsPacket.PsiPush(old(CoreView()), isPat, p)
    {
      hide FirstProgram, FirstAudio;
      var (s, whole) := SecPush(if isPat then pat else pmt, p);
      if isPat { pat := s; } else { pmt := s; }
      if whole {
        if isPat {
          ParsePat(s.buf, SecTotal(s.buf));
          pat := NO_SECTION;
        } else {
          ParsePmt(s.buf, SecTotal(s.buf));
          pmt := NO_SECTION;
        }
      }
    }

    method PsiFeed(isPat: bool, p: Bytes, start: bool)
      requires Shaped()
      modifies `pmtPid, `audPid, `streamType, `pat, `pmt, `pesState, `pesHdr, `pesSkip
      ensures Shaped() && CoreView() == TsPacket.PsiFeed(old(CoreView()), isPat, p, start)
    {
      hide TsPacket.PsiPush;
      if !start {
        PsiPush(isPat, p);
        return;
      }
      if p == [] { return; }
      var pointer := p[0] as int;
      if pointer > |p| - 1 {
        if isPat { pat := NO_SECTION; } else { pmt := NO_SECTION; }
        return;
      }
      if (if isPat then pat else pmt).open {
        PsiPush(isPat, p[1..1 + pointer]);
      }
      if isPat { pat := Section(true, []); } else { pmt := Section(true, []); }
      PsiPush(isPat, p[1 + pointer..]);
    }

    // ---- PES -------------------------------------------------------------------------------------------

    // pes_feed
    method PesFeed(payload: Bytes, start: bool) returns (out: Option<Bytes>)
      requires Shaped()
      modifies `pesState, `pesHdr, `pesSkip
      ensures Shaped() && (CoreView(), out) == TsPacket.PesFeed(old(CoreView()), payload, start)
    {
      if start { pesState, pesHdr, pesSkip := PesHdr, [], 0; }
      ghost var result := PesRun(PesView(), payload);
      var p := payload;
      while |p| > 0
        invariant Shaped() && PesRun(PesView(), p) == result
        decreases |p|, if pesState.PesHdr? then 2 else if pesState.PesSkip? then 1 else 0
      {
        match pesState
        case PesIdle => return None;
        case PesHdr =>
          var want := 9 - |pesHdr|;
          if want > |p| { want := |p|; }
          var h := pesHdr + p[..want];
          if |h| < 9 {
            pesHdr := h;
            return None;
          }
          p := p[want..];
          if !AudioHeader(h) {
            pesState := PesIdle;
            return None;
          }
          pesSkip := h[8] as int;
          pesState := PesSkip;
        case PesSkip =>
          var k := if pesSkip < |p| then pesSkip else |p|;
          p := p[k..];
          pesSkip := pesSkip - k;
          if pesSkip > 0 { return None; }
          pesState := PesData;
        case PesData => return Some(p);
      }
      out := None;
    }

    // ---- a packet ------------------------------------------------------------------------------------

    // What process_pkt does about a gap in a PID's counters.
    method BreakOff(p: Packet)
      requires Shaped()
      modifies `ccErrors, `pesState, `pesHdr, `pesSkip, `pat, `pmt
      ensures Shaped() && CoreView() == Broken(old(CoreView()), p)
    {
      if !Signalled(p) { ccErrors := ccErrors + 1; }
      pesState, pesHdr, pesSkip := PesIdle, [], 0;
      if PidOf(p) == 0 {
        pat := NO_SECTION;
      } else if PidOf(p) == pmtPid {
        pmt := NO_SECTION;
      }
    }

    // process_pkt: what the callback gets, if it is called.
    method ProcessPkt(p: Packet) returns (out: Option<Bytes>)
      requires Shaped()
      modifies `pmtPid, `audPid, `streamType, `pat, `pmt, `pesState, `pesHdr, `pesSkip, `ccErrors, cc
      ensures Shaped() && (CoreView(), out) == Process(old(CoreView()), p)
    {
      hide TsPacket.PsiFeed, TsPacket.PesFeed, Broken, PidOf, CounterOf, Payload, Signalled;
      var pid := PidOf(p);
      if Flagged(p) || pid == NULL_PID || Scrambled(p) || !HasPayload(p) { return None; }
      var prev := cc[pid];
      if prev >= 0 {
        if CounterOf(p) == prev { return None; }
        if CounterOf(p) != (prev + 1) % 16 { BreakOff(p); }
      }
      cc[pid] := CounterOf(p);
      assert CoreView() == Counted(old(CoreView()), p);
      if PayloadAt(p) >= PKT { return None; }
      out := None;
      if pid == 0 {
        PsiFeed(true, Payload(p), UnitStart(p));
      } else if pid == pmtPid {
        PsiFeed(false, Payload(p), UnitStart(p));
      } else if pid == audPid {
        out := PesFeed(Payload(p), UnitStart(p));
      }
    }

    // ---- framing ---------------------------------------------------------------------------------------

    // shift_to_next_sync
    method ShiftToNextSync()
      requires Valid() && have > 0
      modifies `have, `junk, buf
      ensures Shaped() && have <= buf.Length
      ensures var k := F.NextSync(old(buf[..have]), 1);
        buf[..have] == old(buf[..have])[k..] && junk == old(junk) + k
    {
      var k := 1;
      while k < have && buf[k] != F.SYNC
        invariant 1 <= k <= have
        invariant F.NextSync(buf[..have], 1) == F.NextSync(buf[..have], k)
      {
        k := k + 1;
      }
      MoveDown(k);
      have := have - k;
      junk := junk + k;
    }

    // memmove of buf[k..have] to the front
    method MoveDown(k: nat)
      requires k <= have <= buf.Length
      modifies buf
      ensures buf[..have - k] == old(buf[..have])[k..]
    {
      for i := 0 to have - k
        invariant forall j | 0 <= j < i :: buf[j] == old(buf[j + k])
        invariant forall j | i <= j < buf.Length :: buf[j] == old(buf[j])
      {
        buf[i] := buf[i + k];
      }
    }

    // memcpy of data[i..i + n] behind what is there
    method Gather(data: Bytes, i: nat, n: nat)
      requires have + n <= buf.Length && i + n <= |data|
      modifies `have, buf
      ensures have == old(have) + n && buf[..have] == old(buf[..have]) + data[i..i + n]
    {
      for j := 0 to n
        modifies buf
        invariant buf[..have + j] == old(buf[..have]) + data[i..i + j]
      {
        buf[have + j] := data[i + j];
      }
      have := have + n;
    }

    // The state of a feed in progress.
    ghost function Now(outs: seq<Bytes>, answers: seq<bool>): (f: F.Feed)
      requires Valid()
      reads this, buf, cc
      ensures F.FeedValid(f)
    {
      F.Feed(View(), junk, outs, F.Going, answers)
    }

    // What a full buffer led to: f, where out has been handed to the callback, if there is any.
    ghost predicate Led(f: F.Feed, outs: seq<Bytes>, answers: seq<bool>, out: Option<Bytes>, garbage: bool)
      requires Valid()
      reads this, buf, cc
    {
      && f.answers == answers && garbage == f.verdict.Garbage?
      && View() == f.d && junk == f.junk
      && f.outs == (if out.Some? then outs + [out.value] else outs)
      && (out.Some? ==> !garbage && (f.verdict.Stopped? <==> |outs| < |answers| && answers[|outs|]))
      && (out.None? ==> !f.verdict.Stopped?)
    }

    // Without sync, a candidate and its confirmation.
    method ActLooking(outs: seq<Bytes>, ghost answers: seq<bool>) returns (out: Option<Bytes>, garbage: bool)
      requires Valid() && F.Full(View()) && !synced
      modifies this, buf, cc
      ensures Valid() && Led(F.Acted(old(Now(outs, answers))), outs, answers, out, garbage)
    {
      hide Process, F.NextSync, HeaderOk, F.Acted, F.Act;
      if F.Confirmed(View()) { F.ActedPacket(Now(outs, answers)); }
      garbage := false;
      out := None;
      ghost var b := buf[..have];
      assert b[..PKT] == buf[..PKT] && b[PKT..] == buf[PKT..2 * PKT];
      if HeaderOk(buf[..PKT]) && HeaderOk(buf[PKT..2 * PKT]) {
        synced := true;
        junk := 0;
        out := ProcessPkt(buf[..PKT]);
        MoveDown(PKT);
        have := PKT;
      } else {
        garbage := DropCandidate(outs, answers);
      }
    }

    // No packet begins here.
    method DropCandidate(ghost outs: seq<Bytes>, ghost answers: seq<bool>) returns (garbage: bool)
      requires Valid() && F.Full(View()) && !synced && !F.Confirmed(View())
      modifies this, buf, cc
      ensures Valid() && Led(F.Acted(old(Now(outs, answers))), outs, answers, None, garbage)
    {
      hide Process, F.NextSync, HeaderOk, F.Acted, F.Act, F.Confirmed;
      F.ActedDrops(Now(outs, answers));
      ShiftToNextSync();
      garbage := junk > F.RESYNC_MAX;
      if garbage { Reset(); }
    }

    // In sync, one packet.
    method ActSynced(outs: seq<Bytes>, ghost answers: seq<bool>) returns (out: Option<Bytes>)
      requires Valid() && F.Full(View()) && synced
      modifies this, buf, cc
      ensures Valid() && Led(F.Acted(old(Now(outs, answers))), outs, answers, out, false)
    {
      hide Process, F.NextSync, HeaderOk, F.Acted, F.Act;
      if F.Confirmed(View()) { F.ActedPacket(Now(outs, answers)); } else { F.ActedDrops(Now(outs, answers)); }
      out := None;
      ghost var b := buf[..have];
      assert b[..PKT] == buf[..PKT] && b[0] == buf[0];
      if buf[0] != F.SYNC {
        synced := false;
        ShiftToNextSync();
      } else {
        out := ProcessPkt(buf[..PKT]);
        have := 0;
        assert buf[..have] == b[PKT..];
      }
    }

    // One full buffer: a packet to process, or bytes to drop.
    method Act(outs: seq<Bytes>, ghost answers: seq<bool>) returns (out: Option<Bytes>, garbage: bool)
      requires Valid() && F.Full(View())
      modifies this, buf, cc
      ensures Valid() && Led(F.Acted(old(Now(outs, answers))), outs, answers, out, garbage)
    {
      hide *;
      garbage := false;
      if synced {
        out := ActSynced(outs, answers);
      } else {
        out, garbage := ActLooking(outs, answers);
      }
    }

    // The bytes ts_demux_feed passes over before a candidate packet.
    method SkipStrays(data: Bytes, from: nat, ghost outs: seq<Bytes>, ghost answers: seq<bool>) returns (i: nat)
      requires Valid() && !synced && have == 0 && from <= |data| && junk <= F.RESYNC_MAX
      modifies `junk
      ensures Valid() && from <= i <= |data| && View() == old(View())
      ensures i < |data| ==> data[i] == F.SYNC
      ensures junk <= F.RESYNC_MAX ==>
        F.Go(old(Now(outs, answers)), data[from..]) == F.Go(Now(outs, answers), data[i..])
      ensures junk > F.RESYNC_MAX ==>
        F.Go(old(Now(outs, answers)), data[from..]) == F.Feed(F.DemuxReset(View()), 0, outs, F.Garbage, answers)
    {
      hide Process;
      i := from;
      ghost var goal := F.Go(Now(outs, answers), data[from..]);
      while i < |data| && data[i] != F.SYNC
        invariant from <= i <= |data| && Valid() && View() == old(View())
        invariant if junk <= F.RESYNC_MAX then goal == F.Go(Now(outs, answers), data[i..])
                  else goal == F.Feed(F.DemuxReset(View()), 0, outs, F.Garbage, answers)
      {
        assert data[i..][0] == data[i] && data[i..][1..] == data[i + 1..];
        ghost var f := Now(outs, answers);
        junk := junk + 1;
        i := i + 1;
      }
    }

    // The memcpy of ts_demux_feed: up to a full buffer.
    method Fill(data: Bytes, from: nat, ghost outs: seq<Bytes>, ghost answers: seq<bool>) returns (i: nat)
      requires Valid() && from <= |data|
      requires from < |data| && !synced && have == 0 ==> data[from] == F.SYNC
      modifies `have, buf
      ensures Valid() && from <= i <= |data| && have == old(have) + (i - from)
      ensures have < F.Want(synced) ==> i == |data|
      ensures have == F.Want(synced) ==> F.Full(View())
      ensures F.Go(old(Now(outs, answers)), data[from..]) == F.Go(Now(outs, answers), data[i..])
    {
      hide F.Go, CoreValid;
      var n := F.Want(synced) - have;
      if n > |data| - from { n := |data| - from; }
      GoGathers(Now(outs, answers), data, from, n);
      Gather(data, from, n);
      i := from + n;
    }

    // The loop of ts_demux_feed once a full buffer is there.
    method Turn(ghost rest: Bytes, sofar: seq<Bytes>, answers: seq<bool>) returns (outs: seq<Bytes>, code: int, more: bool)
      requires Valid() && F.Full(View()) && junk <= F.RESYNC_MAX && (synced ==> junk == 0)
      modifies this, buf, cc
      ensures Ready() && have < old(have)
      ensures var f := F.Go(old(Now(sofar, answers)), rest);
        if more then F.Go(Now(outs, answers), rest) == f && junk <= F.RESYNC_MAX && (synced ==> junk == 0)
        else View() == f.d && outs == f.outs && code == Code(f.verdict)
    {
      F.ActedJunk(Now(sofar, answers));
      F.ActedValid(Now(sofar, answers));
      GoActs(Now(sofar, answers), rest);
      hide Process, F.Acted, F.Go, CoreView;
      var out, garbage := Act(sofar, answers);
      outs, code, more := sofar, 0, true;
      if out.Some? {
        outs := sofar + [out.value];
        if |sofar| < |answers| && answers[|sofar|] { code, more := 1, false; }
      } else if garbage {
        code, more := -1, false;
      }
    }

    lemma Ends(rest: Bytes, outs: seq<Bytes>, answers: seq<bool>)
      requires Valid() && have < F.Want(synced) && rest == []
      ensures F.Go(Now(outs, answers), rest) == F.Feed(View(), junk, outs, F.Going, answers)
    {
      GoEnds(Now(outs, answers), rest);
    }

    method GiveUp()
      requires Valid()
      modifies this, buf, cc
      ensures Ready() && View() == F.DemuxReset(old(View()))
    {
      Reset();
    }

    // One iteration of ts_demux_feed's loop; without more, the feed is over.
    method Pass(data: Bytes, from: nat, sofar: seq<Bytes>, answers: seq<bool>)
      returns (i: nat, outs: seq<Bytes>, code: int, more: bool)
      requires Ready() && from <= |data| && junk <= F.RESYNC_MAX && (synced ==> junk == 0)
      requires from < |data| || (synced && have == PKT)
      modifies this, buf, cc
      ensures Ready() && from <= i <= |data| && (from < i || have < old(have) || !more)
      ensures var f := F.Go(old(Now(sofar, answers)), data[from..]);
        if more then F.Go(Now(outs, answers), data[i..]) == f && junk <= F.RESYNC_MAX && (synced ==> junk == 0)
        else View() == f.d && outs == f.outs && code == Code(f.verdict)
    {
      hide F.Go, View, Now, F.Full, CoreView, PesView;
      i, outs, code, more := from, sofar, 0, false;
      if !synced && have == 0 {
        i := SkipStrays(data, i, outs, answers);
        if junk > F.RESYNC_MAX {
          GiveUp();
          code := -1;
          return;
        }
        if i == |data| {
          Ends(data[i..], outs, answers);
          return;
        }
      }
      i := Fill(data, i, outs, answers);
      if have < F.Want(synced) {
        Ends(data[i..], outs, answers);
        return;
      }
      outs, code, more := Turn(data[i..], outs, answers);
    }

    /** ts_demux_feed: exactly the machine over single bytes. answers says of each callback whether it
        returns non-zero; outs is what the callbacks get. */
    method Feed(data: Bytes, answers: seq<bool>) returns (code: int, outs: seq<Bytes>)
      requires Ready()
      modifies this, buf, cc
      ensures Ready()
      ensures var f := F.Go(F.Begin(old(View()), answers), data);
        View() == f.d && outs == f.outs && code == Code(f.verdict)
    {
      var i := 0;
      outs := [];
      junk := 0;
      assert Now(outs, answers) == F.Begin(old(View()), answers);
      hide F.Go, View, Now, CoreView, PesView;
      ghost var goal := F.Go(Now(outs, answers), data);
      assert data[i..] == data;
      while i < |data| || (synced && have == PKT)
        invariant Ready() && 0 <= i <= |data|
        invariant junk <= F.RESYNC_MAX && (synced ==> junk == 0)
        invariant goal == F.Go(Now(outs, answers), data[i..])
        decreases |data| - i, have
      {
        var more;
        i, outs, code, more := Pass(data, i, outs, answers);
        if !more { return; }
      }
      Ends(data[i..], outs, answers);
      code := 0;
    }
  }

  function Code(v: F.Verdict): int {
    match v
    case Going => 0
    case Stopped => 1
    case Garbage => -1
  }

  lemma GoEnds(f: F.Feed, rest: Bytes)
    requires F.FeedValid(f) && !F.Full(f.d) && rest == []
    ensures F.Go(f, rest) == f
  {}

  // A full buffer acts, and the feed goes on unless that ended it.
  lemma GoActs(f: F.Feed, rest: Bytes)
    requires F.FeedValid(f) && F.Full(f.d) && f.verdict.Going?
    ensures F.FeedValid(F.Acted(f)) && F.Go(f, rest) == F.Go(F.Acted(f), rest)
    ensures !F.Acted(f).verdict.Going? ==> F.Go(f, rest) == F.Acted(f)
  {
    F.ActedValid(f);
    hide F.Acted;
  }

  // Bytes that do not overfill the buffer are just gathered.
  lemma {:induction false} GoGathers(f: F.Feed, data: Bytes, i: nat, n: nat)
    requires F.FeedValid(f) && f.verdict.Going? && i + n <= |data| && |f.d.buf| + n <= F.Want(f.d.synced)
    requires n == 0 || f.d.synced || f.d.buf != [] || data[i] == F.SYNC
    ensures F.Go(f, data[i..]) == F.Go(f.(d := f.d.(buf := f.d.buf + data[i..i + n])), data[i + n..])
    decreases n
  {
    hide F.Acted;
    if n == 0 {
      assert f.d.buf + data[i..i] == f.d.buf;
    } else {
      assert data[i..][0] == data[i] && data[i..][1..] == data[i + 1..];
      var next := f.(d := f.d.(buf := f.d.buf + [data[i]]));
      assert F.Taken(f, data[i]) == next;
      assert next.d.buf + data[i + 1..i + n] == f.d.buf + data[i..i + n];
      GoGathers(next, data, i + 1, n - 1);
    }
  }
}
