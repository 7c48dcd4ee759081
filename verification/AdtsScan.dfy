/** src/adts_scan.c itself: the scanner as an object with a fixed buffer, proved against what
    AdtsStream says a stream is made of. */
module AdtsScan {
  import opened Prelude
  import opened AdtsStream
  import C = AdtsCuts

  // The scanner at one moment: what it holds, what it has been fed, and what it has made of that.
  datatype Snap = Snap(h: Held, input: Bytes, pieces: seq<Piece>)

  class AdtsScan {
    const buf: array<byte>
    var n: nat
    var skipLeft: nat
    var locked: bool
    var tags: nat
    var skipped: nat

    // Since the scanner was opened or last reset: the bytes fed, and what became of them; and the two
    // counters as they were then.
    ghost var input: Bytes
    ghost var pieces: seq<Piece>
    ghost var tags0: nat
    ghost var skipped0: nat

    ghost function View(): Held
      requires n <= buf.Length
      reads this, buf
    {
      Held(buf[..n], skipLeft, locked)
    }

    ghost function Now(): Snap
      requires n <= buf.Length
      reads this, buf
    {
      Snap(View(), input, pieces)
    }

    ghost function At(off: nat): Snap
      requires off <= n <= buf.Length
      reads this, buf
    {
      Snap(Ahead(off), input, pieces)
    }

    // What is still ahead of drain, with off bytes of the buffer consumed.
    ghost function Ahead(off: nat): Held
      requires off <= n <= buf.Length
      reads this, buf
    {
      Held(buf[off..n], skipLeft, locked)
    }

    ghost predicate Shaped()
      reads this
    {
      buf.Length == SCAN_CAP && n <= SCAN_CAP && (skipLeft > 0 ==> n == 0)
    }

    ghost predicate Counted()
      reads this
    {
      tags == tags0 + Tags(pieces) && skipped == skipped0 + Junks(pieces)
    }

    ghost predicate Valid()
      reads this, buf
    {
      Shaped() && Counted() && Explains(input, false, pieces, View())
    }

    // adts_scan_open
    constructor ()
      ensures Valid() && fresh(buf) && buf.Length == 8209 && input == [] && pieces == []
    {
      buf := new byte[SCAN_CAP];
      n, skipLeft, locked, tags, skipped := 0, 0, false, 0, 0;
      input, pieces, tags0, skipped0 := [], [], 0, 0;
      new;
      assert buf[..0] == [];
    }

    // adts_scan_reset: the two counters stay.
    method Reset()
      requires Valid()
      modifies this
      ensures Valid() && input == [] && pieces == []
      ensures tags == old(tags) && skipped == old(skipped)
    {
      n, skipLeft, locked := 0, 0, false;
      input, pieces, tags0, skipped0 := [], [], tags, skipped;
      assert buf[..0] == [];
    }

    // memmove of buf[k..n] to the front
    method MoveDown(k: nat)
      requires k <= n <= buf.Length
      modifies `n, buf
      ensures n == old(n) - k && buf[..n] == old(buf[..n])[k..]
    {
      for i := 0 to n - k
        modifies buf
        invariant forall j | 0 <= j < i :: buf[j] == old(buf[j + k])
        invariant forall j | i <= j < buf.Length :: buf[j] == old(buf[j])
      {
        buf[i] := buf[i + k];
      }
      n := n - k;
    }

    // What drain has decided on so far, with off bytes of the buffer consumed.
    ghost predicate Drained(off: nat)
      reads this, buf
    {
      && buf.Length == SCAN_CAP && off <= n <= SCAN_CAP && Counted()
      && (skipLeft > 0 ==> off == n)
      && Explains(input, false, pieces, Ahead(off))
    }

    // One turn of drain's loop: how many bytes it consumes - none when it has to wait - and the frame
    // among them, if it is one.
    method Turn(off: nat) returns (len: nat, out: Option<Bytes>)
      requires buf.Length == SCAN_CAP && off < n <= SCAN_CAP && skipLeft == 0
      modifies `skipLeft, `locked, `tags, `skipped
      ensures off + len <= n
      ensures var h := old(Held(buf[off..n], 0, locked));
        if Decide(h.buf, h.locked).Wait? then
          len == 0 && out.None? && skipLeft == 0 && locked == h.locked && tags == old(tags) && skipped == old(skipped)
        else
          var (p, h') := Next(h, false);
          && len > 0 && Held(h.buf[len..], skipLeft, locked) == h'
          && out == (if p.Emitted? then Some(p.bytes) else None)
          && tags == old(tags) + (if p.Dropped? then 1 else 0)
          && skipped == old(skipped) + (if p.Skipped? then 1 else 0)
    {
      var view := buf[off..n];
      var choice := Decide(view, locked);
      hide Decide;
      len, out := 0, None;
      match choice
      case Wait => return;
      case Frame(fl) =>
        locked := true;
        len, out := fl, Some(view[..fl]);
      case Tag(tl) =>
        tags := tags + 1;
        if tl <= |view| {
          len := tl;
        } else {
          skipLeft := tl - |view|;
          len := |view|;
        }
      case Junk(unlock) =>
        if unlock { locked := false; }
        skipped := skipped + 1;
        len := 1;
    }

    // The same, with what it makes of the stream.
    method Advance(off: nat) returns (len: nat, out: Option<Bytes>)
      requires Drained(off) && off < n && skipLeft == 0
      modifies `skipLeft, `locked, `tags, `skipped, `pieces
      ensures off + len <= n && Drained(off + len)
      ensures len == 0 ==> Waiting(off) && out.None?
      ensures skipLeft > 0 ==> off + len == n
      ensures Drew(old(At(off)), Given(out), At(off + len))
    {
      hide *;
      Undrained(off);
      ghost var start := At(off);
      ghost var h, was := start.h, pieces;
      len, out := Turn(off);
      Slices(off, len);
      if len == 0 {
        NoneGiven(was);
        NothingNew(h);
        Waits(off, h);
      } else {
        Decided(input, was, h);
        TurnGoesOn(h);
        pieces := was + [Next(h, false).0];
      }
      DrainedOn(start, off + len, Given(out));
    }

    lemma Undrained(off: nat)
      requires Drained(off)
      ensures off <= n <= buf.Length == SCAN_CAP && At(off) == Snap(Held(buf[off..n], skipLeft, locked), input, pieces)
      ensures tags == tags0 + Tags(pieces) && skipped == skipped0 + Junks(pieces)
      ensures Explains(input, false, pieces, At(off).h) && C.Tidy(At(off).h)
    {
      hide Explains;
    }

    lemma DrainedOn(start: Snap, off: nat, outs: seq<Bytes>)
      requires off <= n <= buf.Length == SCAN_CAP && (skipLeft > 0 ==> off == n)
      requires tags == tags0 + Tags(pieces) && skipped == skipped0 + Junks(pieces)
      requires Explains(input, false, pieces, Held(buf[off..n], skipLeft, locked))
      requires input == start.input && Frames(pieces) == Frames(start.pieces) + outs
      requires GoesOn(start.h, outs, Held(buf[off..n], skipLeft, locked))
      ensures Drained(off) && Drew(start, outs, At(off))
    {
      hide Explains, Frames, GoesOn;
    }

    lemma Front(off: nat)
      requires off <= n <= buf.Length
      ensures buf[off..n] == buf[..n][off..]
      ensures off == 0 ==> buf[off..n] == buf[..n]
    {}

    lemma Slices(off: nat, len: nat)
      requires off + len <= n <= buf.Length
      ensures buf[off..n][len..] == buf[off + len..n]
    {}

    lemma Waits(off: nat, h: Held)
      requires off < n <= buf.Length && h == Held(buf[off..n], 0, locked) && skipLeft == 0
      requires Decide(h.buf, h.locked).Wait?
      ensures Waiting(off)
    {}

    // Nothing more can be decided on.
    ghost predicate Waiting(off: nat)
      reads this, buf
    {
      off < n <= buf.Length && skipLeft == 0 && Decide(buf[off..n], locked).Wait?
    }

    // The memmove that ends drain.
    method Compact(off: nat)
      requires Drained(off)
      modifies `n, buf
      ensures Valid() && n == old(n) - off <= buf.Length == SCAN_CAP && Now() == old(At(off))
      ensures old(Waiting(off)) ==> Waiting(0)
    {
      hide Explains, Decide, Tags, Junks;
      Front(off);
      MoveDown(off);
      Front(0);
    }

    lemma StartsDrained()
      requires Valid()
      ensures Drained(0) && n <= buf.Length && At(0) == Now() && Drew(Now(), [], At(0))
    {
      assert buf[0..n] == buf[..n];
      hide Explains, GoesOn;
      NothingNew(View());
    }

    // drain: everything that can be decided on, until a callback asks to stop. answers says of each of the
    // feed's callbacks whether it does; calls is how many there have been before.
    method Drain(calls: nat, answers: seq<bool>) returns (outs: seq<Bytes>, stop: bool)
      requires Valid() && skipLeft == 0
      modifies this, buf
      ensures Valid() && n <= buf.Length && n <= old(n) && Drew(old(Now()), outs, Now())
      ensures stop ==> Asks(answers, calls + |outs|)
      ensures NoneAsks(answers, calls, calls + |outs| - if stop then 1 else 0)
      ensures !stop ==> Settled(Now().h)
      ensures n == old(n) > 0 ==> n < SCAN_CAP
    {
      hide *;
      var off := 0;
      outs, stop := [], false;
      StartsDrained();
      NoCall(answers, calls);
      ghost var start, all := Now(), n;
      while off < n
        invariant off <= n == all <= buf.Length && Drained(off) && skipLeft == 0
        invariant Drew(start, outs, At(off)) && !stop && NoneAsks(answers, calls, calls + |outs|)
        decreases n - off
      {
        ghost var was := At(off);
        var len, out := Advance(off);
        DrewFurther(start, outs, was, Given(out), At(off + len));
        GivenCount(out);
        outs := outs + Given(out);
        off := off + len;
        if out.Some? && Asks(answers, calls + |outs|) {
          stop := true;
          break;
        }
        if out.Some? { OneMoreCall(answers, calls, calls + |outs| - 1); }
        if len == 0 || skipLeft > 0 { break; }
      }
      ghost var waits := Waiting(off);
      Compact(off);
      Rests(waits);
    }

    // Where drain leaves off, unless stopped: with nothing in the buffer, or waiting.
    lemma Rests(waits: bool)
      requires n <= buf.Length == SCAN_CAP && (waits ==> Waiting(0))
      ensures waits || n == 0 ==> Settled(Now().h)
      ensures waits ==> n < SCAN_CAP
      ensures 0 < SCAN_CAP
    {
      assert buf[0..n] == buf[..n];
      if waits { WaitsAreShort(buf[..n], locked); }
    }

    // The bytes of a tag that outran the buffer are passed over, not buffered.
    method SkipTag(data: Bytes, from: nat) returns (pos: nat)
      requires Valid() && skipLeft > 0 && from <= |data|
      modifies this
      ensures Valid() && n == 0 <= buf.Length && from <= pos <= |data|
      ensures Fed(old(Now()), data[from..], [], Now(), data[pos..]) && Settled(Now().h)
      ensures skipLeft > 0 ==> pos == |data|
    {
      hide Explains, WithTail, Frames, Tags, Junks, Course, Fed;
      var k := |data| - from;
      if k > skipLeft { k := skipLeft; }
      pos := from + k;
      ghost var h, was, start := View(), pieces, Now();
      assert buf[..n] == [];
      SkipCourse(h, data[from..], k);
      Suffix(data, from, k);
      assert data[from..] == data[from..pos] + data[pos..];
      if k == 0 {
        FedBySkip(start, Now(), data[from..], k);
        return;
      }
      ExplainsSkip(input, false, was, h, data[from..pos]);
      TailCounts(was, data[from..pos]);
      input := input + data[from..pos];
      pieces := WithTail(was, data[from..pos]);
      skipLeft := skipLeft - k;
      if skipLeft == 0 { locked := false; }
      assert buf[..n] == [];
      FedBySkip(start, Now(), data[from..], k);
    }

    // The memcpy that tops the buffer up, if there is anything to copy and room for it.
    method TopUp(data: Bytes, from: nat) returns (pos: nat)
      requires Valid() && skipLeft == 0 && from <= |data|
      modifies `n, `input, buf
      ensures Valid() && from <= pos <= |data|
      ensures Topped(old(Now()), data[from..], pos - from, Now())
      ensures n == old(n) + (pos - from) <= SCAN_CAP == buf.Length && (pos == |data| || n == SCAN_CAP)
    {
      var k := SCAN_CAP - n;
      if k > |data| - from { k := |data| - from; }
      pos := from + k;
      Suffix(data, from, k);
      ExplainsMore(input, false, pieces, View(), data[from..pos]);
      hide Explains, Tags, Junks;
      Append(data, from, k);
      input := input + data[from..pos];
    }

    // memcpy of data[from..from + k] behind what is there
    method Append(data: Bytes, from: nat, k: nat)
      requires n + k <= buf.Length && from + k <= |data|
      modifies `n, buf
      ensures n == old(n) + k && buf[..n] == old(buf[..n]) + data[from..from + k]
    {
      for j := 0 to k
        modifies buf
        invariant buf[..n + j] == old(buf[..n]) + data[from..from + j]
      {
        buf[n + j] := data[from + j];
      }
      n := n + k;
    }

    lemma StartsFed(data: Bytes)
      requires Valid()
      ensures n <= buf.Length && Fed(Now(), data, [], Now(), data) && C.Tidy(Now().h)
      ensures |Now().h.buf| == n && Now().h.skipLeft == skipLeft && data[0..] == data
      ensures Now().h == View() && Now().input == input && Now().pieces == pieces
    {
      hide Explains;
      FedNothing(Now(), data);
    }

    // One turn of adts_scan_feed's loop; it is over (done) unless more can be taken or decided.
    method Pass(data: Bytes, from: nat, calls: nat, answers: seq<bool>)
      returns (pos: nat, outs: seq<Bytes>, code: int, done: bool)
      requires Valid() && from <= |data|
      modifies this, buf
      ensures Valid() && n <= buf.Length && from <= pos <= |data|
      ensures Fed(old(Now()), data[from..], outs, Now(), data[pos..])
      ensures if done && code != 0 then code == 1 && Asks(answers, calls + |outs|) else Settled(Now().h)
      ensures NoneAsks(answers, calls, calls + |outs| - if done && code != 0 then 1 else 0)
      ensures done && code == 0 ==> pos == |data|
      ensures !done ==> from < pos || n < old(n)
    {
      hide *;
      StartsFed(data[from..]);
      ghost var was := Now();
      pos, outs, code, done := from, [], 0, true;
      NoCall(answers, calls);
      if skipLeft > 0 {
        pos := SkipTag(data, pos);
        if skipLeft > 0 { return; }
      }
      ghost var at, mid := pos, Now();
      pos, outs, code, done := Refill(data, pos, calls, answers);
      FedFurther(was, data[from..], [], mid, data[at..], outs, Now(), data[pos..]);
    }

    // The part of a turn past the skipping of a tag.
    method Refill(data: Bytes, from: nat, calls: nat, answers: seq<bool>)
      returns (pos: nat, outs: seq<Bytes>, code: int, done: bool)
      requires Valid() && skipLeft == 0 && from <= |data|
      modifies this, buf
      ensures Valid() && n <= buf.Length && from <= pos <= |data|
      ensures Fed(old(Now()), data[from..], outs, Now(), data[pos..])
      ensures if done && code != 0 then code == 1 && Asks(answers, calls + |outs|) else Settled(Now().h)
      ensures NoneAsks(answers, calls, calls + |outs| - if done && code != 0 then 1 else 0)
      ensures done && code == 0 ==> pos == |data|
      ensures !done ==> from < pos || n < old(n)
    {
      hide *;
      StartsFed(data[from..]);
      ghost var was := Now();
      outs, code, done := [], 0, true;
      NoCall(answers, calls);
      pos := TopUp(data, from);
      Suffix(data, from, pos - from);
      ghost var full, d := Now(), data[from..];
      if n == 0 {
        Rests(false);
        ToppedNothing(was, d, full);
        return;
      }
      var before, stop := n, false;
      outs, stop := Drain(calls, answers);
      Refilled(was, d, pos - from, full, outs, Now());
      if stop {
        code := 1;
      } else if n == before {
        code := if pos >= |data| then 0 else -1;
      } else {
        done := false;
      }
    }

    /** adts_scan_feed never gives up. Unless a callback stops it, it takes all of data and leaves nothing
        undecided; what it hands to the callbacks is the frames among the new pieces, and from a scanner that
        had nothing left to decide, just what Feed of AdtsCuts says. */
    method Feed(data: Bytes, answers: seq<bool>) returns (code: int, outs: seq<Bytes>)
      requires Valid()
      modifies this, buf
      ensures Valid()
      ensures code == 0 || code == 1
      ensures code == 0 ==> input == old(input) + data && Settled(View())
      ensures code == 1 ==> 0 < |outs| <= |answers| && answers[|outs| - 1] && old(input) <= input <= old(input) + data
      ensures forall k | 0 <= k < |outs| && k < |answers| && answers[k] :: code == 1 && k == |outs| - 1
      ensures Frames(pieces) == Frames(old(pieces)) + outs
      ensures code == 0 && Settled(old(View())) ==>
        outs == C.Feed(old(View()), data).frames && View() == C.Feed(old(View()), data).h
    {
      hide *;
      StartsFed(data);
      ghost var was := Now();
      var pos := 0;
      outs := [];
      NoCall(answers, 0);
      while true
        invariant Valid() && n <= buf.Length && 0 <= pos <= |data|
        invariant Fed(was, data, outs, Now(), data[pos..]) && (Settled(was.h) ==> Settled(Now().h))
        invariant NoneAsks(answers, 0, |outs|)
        decreases |data| - pos, n
      {
        ghost var at, mid := pos, Now();
        var more, done;
        pos, more, code, done := Pass(data, pos, |outs|, answers);
        FedFurther(was, data, outs, mid, data[at..], more, Now(), data[pos..]);
        MoreCalls(answers, 0, |outs|, |outs + more| - if done && code != 0 then 1 else 0);
        outs := outs + more;
        if done {
          Answered(answers, |outs|, code);
          StartsFed(data);
          FedAll(was, data, outs, Now(), data[pos..]);
          return;
        }
      }
    }
  }

  // No callback from number from + 1 to number to asks to stop.
  predicate NoneAsks(answers: seq<bool>, from: nat, to: int) {
    forall k | from < k <= to :: !Asks(answers, k)
  }

  lemma NoCall(answers: seq<bool>, calls: nat)
    ensures NoneAsks(answers, calls, calls)
  {}

  lemma OneMoreCall(answers: seq<bool>, from: nat, to: nat)
    requires NoneAsks(answers, from, to) && !Asks(answers, to + 1)
    ensures NoneAsks(answers, from, to + 1)
  {}

  lemma MoreCalls(answers: seq<bool>, from: nat, to: nat, end: int)
    requires NoneAsks(answers, from, to) && NoneAsks(answers, to, end)
    ensures NoneAsks(answers, from, end)
  {}

  // The same in the answers themselves: the last callback asked, if the feed was stopped, and no other.
  lemma Answered(answers: seq<bool>, calls: nat, code: int)
    requires NoneAsks(answers, 0, calls - if code != 0 then 1 else 0) && (code != 0 ==> code == 1 && Asks(answers, calls))
    ensures code == 1 ==> 0 < calls <= |answers| && answers[calls - 1]
    ensures forall k | 0 <= k < calls && k < |answers| && answers[k] :: code == 1 && k == calls - 1
  {
    assert forall k | 0 <= k < calls && k < |answers| && answers[k] :: Asks(answers, k + 1);
  }

  lemma GivenCount(out: Option<Bytes>)
    ensures |Given(out)| == if out.Some? then 1 else 0
  {}

  // drain goes on from g as from h, once outs has been handed out.
  ghost predicate GoesOn(h: Held, outs: seq<Bytes>, g: Held) {
    && C.Tidy(h) && C.Tidy(g)
    && C.Drain(h).frames == outs + C.Drain(g).frames && C.Drain(h).h == C.Drain(g).h
  }

  lemma NothingNew(h: Held)
    requires C.Tidy(h)
    ensures GoesOn(h, [], h) && GoesOn(h, Given(None), h)
  {
    hide C.Drain;
  }

  // Part of a drain: outs is handed out.
  ghost predicate Drew(was: Snap, outs: seq<Bytes>, now: Snap) {
    now.input == was.input && Frames(now.pieces) == Frames(was.pieces) + outs && GoesOn(was.h, outs, now.h)
  }

  lemma DrewFurther(was: Snap, a: seq<Bytes>, mid: Snap, b: seq<Bytes>, now: Snap)
    requires Drew(was, a, mid) && Drew(mid, b, now)
    ensures Drew(was, a + b, now)
  {
    hide Frames, C.Drain;
    Associates(a, b, C.Drain(now.h).frames);
    Associates(Frames(was.pieces), a, b);
  }

  lemma TurnGoesOn(h: Held)
    requires h.buf != [] && h.skipLeft == 0 && !Decide(h.buf, h.locked).Wait?
    ensures var (p, g) := Next(h, false); GoesOn(h, Given(if p.Emitted? then Some(p.bytes) else None), g)
  {
    C.DrainTurns(h);
    hide Decide, C.Drain;
  }

  // With nothing left to decide before and after, feeding data at h comes down to outs and feeding rest at g.
  ghost predicate Course(h: Held, data: Bytes, outs: seq<Bytes>, g: Held, rest: Bytes) {
    Settled(h) && Settled(g) && C.Tidy(h) && C.Tidy(g) ==>
      C.Feed(h, data).frames == outs + C.Feed(g, rest).frames && C.Feed(h, data).h == C.Feed(g, rest).h
  }

  // Part of a feed: of data, all but rest has been taken, and outs handed out.
  ghost predicate Fed(was: Snap, data: Bytes, outs: seq<Bytes>, now: Snap, rest: Bytes) {
    && |rest| <= |data| && rest == data[|data| - |rest|..] && now.input == was.input + data[..|data| - |rest|]
    && Frames(now.pieces) == Frames(was.pieces) + outs
    && C.Tidy(now.h) && Course(was.h, data, outs, now.h, rest)
  }

  lemma FedNothing(was: Snap, data: Bytes)
    requires C.Tidy(was.h)
    ensures Fed(was, data, [], was, data)
  {
    hide C.Feed, Frames;
    assert data[0..] == data && was.input + data[..0] == was.input;
  }

  lemma FedFurther(was: Snap, data: Bytes, a: seq<Bytes>, mid: Snap, rest: Bytes, b: seq<Bytes>, now: Snap, left: Bytes)
    requires Fed(was, data, a, mid, rest) && Fed(mid, rest, b, now, left) && (Settled(was.h) ==> Settled(mid.h))
    ensures Fed(was, data, a + b, now, left)
    ensures a == [] ==> Fed(was, data, b, now, left)
  {
    hide C.Feed, Frames, Settled;
    Slicing(data, |data| - |rest|, |rest| - |left|);
    Associates(Frames(was.pieces), a, b);
    if Settled(was.h) && C.Tidy(was.h) && Settled(now.h) { Associates(a, b, C.Feed(now.h, left).frames); }
    assert a == [] ==> a + b == b;
  }

  lemma Slicing(data: Bytes, m: nat, n: nat)
    requires m + n <= |data|
    ensures data[m..][n..] == data[m + n..] && data[..m] + data[m..][..n] == data[..m + n]
  {}

  lemma FedAll(was: Snap, data: Bytes, outs: seq<Bytes>, now: Snap, rest: Bytes)
    requires Fed(was, data, outs, now, rest)
    ensures was.input <= now.input <= was.input + data && Frames(now.pieces) == Frames(was.pieces) + outs
    ensures rest == [] ==> now.input == was.input + data
    ensures rest == [] && Settled(now.h) && Settled(was.h) && C.Tidy(was.h) ==>
      outs == C.Feed(was.h, data).frames && now.h == C.Feed(was.h, data).h
  {
    if rest == [] {
      assert data[..|data|] == data;
      if Settled(now.h) { C.DrainSettled(now.h); }
    }
    hide C.Feed, Frames, Settled;
  }

  // Part of a feed: k bytes of data are put behind what is held.
  ghost predicate Topped(was: Snap, data: Bytes, k: nat, now: Snap) {
    && k == (if |data| > SCAN_CAP - |was.h.buf| then SCAN_CAP - |was.h.buf| else |data|)
    && now == Snap(Held(was.h.buf + data[..k], 0, was.h.locked), was.input + data[..k], was.pieces)
  }

  lemma ToppedNothing(was: Snap, data: Bytes, now: Snap)
    requires Topped(was, data, 0, now) && was.h.skipLeft == 0
    ensures Fed(was, data, [], now, data[0..])
  {
    assert data[0..] == data && was.h.buf + [] == was.h.buf && was.input + [] == was.input;
    hide C.Feed, Frames;
  }

  lemma Refilled(was: Snap, data: Bytes, k: nat, full: Snap, outs: seq<Bytes>, now: Snap)
    requires was.h.skipLeft == 0 && |was.h.buf| <= SCAN_CAP && Topped(was, data, k, full) && Drew(full, outs, now)
    ensures Fed(was, data, outs, now, data[k..])
  {
    RefillCourse(was.h, data, k, full.h, outs, now.h);
    assert |data| - |data[k..]| == k;
    hide Course, Frames, GoesOn;
  }

  lemma FedBySkip(was: Snap, now: Snap, data: Bytes, k: nat)
    requires k <= |data| && C.Tidy(now.h) && Course(was.h, data, [], now.h, data[k..])
    requires Frames(now.pieces) == Frames(was.pieces)
    requires if k == 0 then now.input == was.input else now.input == was.input + data[..k]
    ensures Fed(was, data, [], now, data[k..])
  {
    hide Course, Frames;
    assert k == 0 ==> was.input + data[..0] == was.input;
    assert Frames(was.pieces) + [] == Frames(was.pieces);
  }

  lemma SkipCourse(h: Held, data: Bytes, k: nat)
    requires h.skipLeft > 0 && h.buf == [] && k == if |data| > h.skipLeft then h.skipLeft else |data|
    ensures var g := if k == 0 then h else if k < h.skipLeft then h.(skipLeft := h.skipLeft - k) else Held([], 0, false);
      Course(h, data, [], g, data[k..])
  {
    if k > 0 {
      C.FeedUnfolds(h, data, k);
    } else {
      assert data[0..] == data;
    }
    hide C.Feed;
  }

  lemma RefillCourse(h: Held, data: Bytes, k: nat, full: Held, outs: seq<Bytes>, g: Held)
    requires C.Tidy(h) && h.skipLeft == 0
    requires |h.buf| <= SCAN_CAP && k == if |data| > SCAN_CAP - |h.buf| then SCAN_CAP - |h.buf| else |data|
    requires full == Held(h.buf + data[..k], 0, h.locked) && GoesOn(full, outs, g)
    ensures Course(h, data, outs, g, data[k..])
  {
    if Settled(h) && Settled(g) {
      HeldIsShort(h);
      C.DrainSettled(g);
      hide C.Drain, Settled;
      if k > 0 {
        C.FeedUnfolds(h, data, k);
        assert C.Take(h, data[..k]) == C.Drain(full);
      } else {
        assert data[..0] == [] && h.buf + [] == h.buf && data[0..] == data;
        C.DrainSettled(h);
      }
      hide C.Feed, C.Take;
      assert outs + [] == outs;
    }
  }

  lemma Suffix(data: Bytes, from: nat, k: nat)
    requires from + k <= |data|
    ensures data[from..][k..] == data[from + k..] && data[from..][..k] == data[from..from + k]
  {}

  lemma TailCounts(ps: seq<Piece>, bytes: Bytes)
    requires ps != [] && ps[|ps| - 1].Dropped?
    ensures Frames(WithTail(ps, bytes)) == Frames(ps)
    ensures Tags(WithTail(ps, bytes)) == Tags(ps) && Junks(WithTail(ps, bytes)) == Junks(ps)
  {
    var last := ps[|ps| - 1];
    assert ps == ps[..|ps| - 1] + [last];
    PieceCounts(ps[..|ps| - 1], last);
    PieceCounts(ps[..|ps| - 1], Dropped(last.bytes + bytes, true));
  }

  // One more decision, and all it adds.
  lemma Decided(input: Bytes, was: seq<Piece>, h: Held)
    requires Explains(input, false, was, h) && h.buf != [] && h.skipLeft == 0 && !Decide(h.buf, h.locked).Wait?
    ensures var (p, h') := Next(h, false);
      && Explains(input, false, was + [p], h')
      && (h'.skipLeft > 0 ==> h'.buf == [])
      && Frames(was + [p]) == Frames(was) + Given(if p.Emitted? then Some(p.bytes) else None)
      && Tags(was + [p]) == Tags(was) + (if p.Dropped? then 1 else 0)
      && Junks(was + [p]) == Junks(was) + (if p.Skipped? then 1 else 0)
  {
    hide Explains, Decide, Frames, Tags, Junks, Next;
    ExplainsNext(input, false, was, h, false);
    NextSkips(h);
    PieceCounts(was, Next(h, false).0);
  }

  lemma NoneGiven(ps: seq<Piece>)
    ensures Frames(ps) == Frames(ps) + Given(None)
  {}

  // A tag outruns the buffer only if it takes all of it.
  lemma NextSkips(h: Held)
    requires h.buf != [] && h.skipLeft == 0 && !Decide(h.buf, h.locked).Wait?
    ensures Next(h, false).1.skipLeft > 0 ==> Next(h, false).1.buf == []
  {
    hide Decide;
  }

  lemma Associates(a: seq<Bytes>, b: seq<Bytes>, c: seq<Bytes>)
    ensures a + b + c == a + (b + c)
  {}

  function Given(out: Option<Bytes>): seq<Bytes> {
    if out.Some? then [out.value] else []
  }

  // Whether the k-th callback of a feed asks to stop.
  predicate Asks(answers: seq<bool>, k: nat) {
    0 < k <= |answers| && answers[k - 1]
  }

  // What one more piece adds to the frames and the counters.
  lemma PieceCounts(ps: seq<Piece>, p: Piece)
    ensures Frames(ps + [p]) == Frames(ps) + (if p.Emitted? then [p.bytes] else [])
    ensures Tags(ps + [p]) == Tags(ps) + (if p.Dropped? then 1 else 0)
    ensures Junks(ps + [p]) == Junks(ps) + (if p.Skipped? then 1 else 0)
  {
    FramesAppend(ps, p);
    TagsAppend(ps, p);
    JunksAppend(ps, p);
    hide *;
  }

  lemma {:induction false} FramesAppend(ps: seq<Piece>, p: Piece)
    ensures Frames(ps + [p]) == Frames(ps) + (if p.Emitted? then [p.bytes] else [])
  {
    if ps == [] {
      assert [p][1..] == [];
    } else {
      var first, last := if ps[0].Emitted? then [ps[0].bytes] else [], if p.Emitted? then [p.bytes] else [];
      assert (ps + [p])[1..] == ps[1..] + [p];
      assert Frames(ps) == first + Frames(ps[1..]) && Frames(ps + [p]) == first + Frames(ps[1..] + [p]);
      hide Frames;
      FramesAppend(ps[1..], p);
      Associates(first, Frames(ps[1..]), last);
    }
  }

  lemma {:induction false} TagsAppend(ps: seq<Piece>, p: Piece)
    ensures Tags(ps + [p]) == Tags(ps) + (if p.Dropped? then 1 else 0)
  {
    if ps == [] {
      assert [p][1..] == [];
    } else {
      assert (ps + [p])[1..] == ps[1..] + [p];
      TagsAppend(ps[1..], p);
    }
  }

  lemma {:induction false} JunksAppend(ps: seq<Piece>, p: Piece)
    ensures Junks(ps + [p]) == Junks(ps) + (if p.Skipped? then 1 else 0)
  {
    if ps == [] {
      assert [p][1..] == [];
    } else {
      assert (ps + [p])[1..] == ps[1..] + [p];
      JunksAppend(ps[1..], p);
    }
  }
}
