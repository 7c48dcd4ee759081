/** src/adts_scan.c, adts_scan_feed as a function of what it is fed, chunk by chunk; and of exactly which
    streams all cuttings give the same. */
module AdtsCuts {
  import opened Prelude
  import opened AdtsStream
  import opened AdtsCutFree

  // ---- the scanner, while no callback stops it --------------------------------------------------------

  // What has been decided and handed out, and what is held.
  datatype Done = Done(choices: seq<Choice>, frames: seq<Bytes>, h: Held)

  const FRESH := Held([], 0, false)

  function Nothing(h: Held): Done {
    Done([], [], h)
  }

  function Glue(a: Done, b: Done): Done {
    Done(a.choices + b.choices, a.frames + b.frames, b.h)
  }

  predicate Tidy(h: Held) {
    h.skipLeft > 0 ==> h.buf == []
  }

  predicate Waiting(h: Held)
    requires h.buf != []
  {
    Decide(h.buf, h.locked).Wait?
  }

  function FrameOf(view: Bytes, c: Choice): seq<Bytes>
    requires c.Frame? ==> c.len <= |view|
  {
    if c.Frame? then [view[..c.len]] else []
  }

  // One turn of drain's loop.
  function Turn(h: Held): (d: Done)
    requires h.buf != [] && h.skipLeft == 0 && !Waiting(h)
    ensures |d.h.buf| < |h.buf| && Tidy(d.h)
  {
    var c := Decide(h.buf, h.locked);
    Done([c], FrameOf(h.buf, c), Next(h, false).1)
  }

  // drain
  function Drain(h: Held): (d: Done)
    requires Tidy(h)
    ensures Tidy(d.h) && Settled(d.h)
    decreases |h.buf|
  {
    if h.buf == [] || Waiting(h) then Nothing(h) else Glue(Turn(h), Drain(Turn(h).h))
  }

  // How much adts_scan_feed takes in one go: what is left of a tag, or what fits into the buffer.
  function Room(h: Held): (n: nat)
    requires Tidy(h) && Settled(h)
    ensures n > 0
  {
    HeldIsShort(h);
    if h.skipLeft > 0 then h.skipLeft else SCAN_CAP - |h.buf|
  }

  function Take(h: Held, b: Bytes): (d: Done)
    requires Tidy(h) && Settled(h) && 0 < |b| <= Room(h)
    ensures Tidy(d.h) && Settled(d.h)
  {
    if h.skipLeft == 0 then Drain(Held(h.buf + b, 0, h.locked))
    else if |b| < h.skipLeft then Nothing(Held([], h.skipLeft - |b|, h.locked))
    else Nothing(FRESH)
  }

  // adts_scan_feed
  function Feed(h: Held, data: Bytes): (d: Done)
    requires Tidy(h) && Settled(h)
    ensures Tidy(d.h) && Settled(d.h)
    decreases |data|
  {
    if data == [] then Nothing(h)
    else
      var k := if Room(h) < |data| then Room(h) else |data|;
      Glue(Take(h, data[..k]), Feed(Take(h, data[..k]).h, data[k..]))
  }

  // A series of feeds.
  function Feeds(h: Held, chunks: seq<Bytes>): (d: Done)
    requires Tidy(h) && Settled(h)
    ensures Tidy(d.h) && Settled(d.h)
    decreases |chunks|
  {
    if chunks == [] then Nothing(h) else Glue(Feed(h, chunks[0]), Feeds(Feed(h, chunks[0]).h, chunks[1..]))
  }

  lemma FeedUnfolds(h: Held, data: Bytes, k: nat)
    requires Tidy(h) && Settled(h) && data != [] && k == if Room(h) < |data| then Room(h) else |data|
    ensures Feed(h, data) == Glue(Take(h, data[..k]), Feed(Take(h, data[..k]).h, data[k..]))
  {
    hide Take, Room, Settled, Tidy;
  }

  lemma DrainSettled(h: Held)
    requires Tidy(h) && Settled(h)
    ensures Drain(h) == Nothing(h) && Feed(h, []) == Nothing(h)
  {}

  // The same decisions and frames, the same bytes held back, the same number still to skip.
  predicate Agree(a: Done, b: Done) {
    a.choices == b.choices && a.frames == b.frames && a.h.buf == b.h.buf && a.h.skipLeft == b.h.skipLeft
  }

  lemma GlueAssociates(a: Done, b: Done, c: Done)
    ensures Glue(Glue(a, b), c) == Glue(a, Glue(b, c))
    ensures Glue(Nothing(a.h), b) == b
  {}

  // ---- a series of feeds as one of single takes --------------------------------------------------------

  predicate Legal(h: Held, ts: seq<Bytes>)
    requires Tidy(h) && Settled(h)
    decreases |ts|
  {
    ts == [] || (0 < |ts[0]| <= Room(h) && Legal(Take(h, ts[0]).h, ts[1..]))
  }

  function Takes(h: Held, ts: seq<Bytes>): (d: Done)
    requires Tidy(h) && Settled(h) && Legal(h, ts)
    ensures Tidy(d.h) && Settled(d.h)
    decreases |ts|
  {
    if ts == [] then Nothing(h) else Glue(Take(h, ts[0]), Takes(Take(h, ts[0]).h, ts[1..]))
  }

  lemma {:induction false} TakesJoin(h: Held, ts: seq<Bytes>, us: seq<Bytes>)
    requires Tidy(h) && Settled(h) && Legal(h, ts) && Legal(Takes(h, ts).h, us)
    ensures Legal(h, ts + us) && Takes(h, ts + us) == Glue(Takes(h, ts), Takes(Takes(h, ts).h, us))
    decreases |ts|
  {
    hide Take, Room, Settled, Tidy;
    if ts == [] {
      assert [] + us == us;
      GlueAssociates(Takes(h, ts), Takes(h, us), Takes(h, us));
    } else {
      assert (ts + us)[1..] == ts[1..] + us;
      var d := Take(h, ts[0]);
      TakesJoin(d.h, ts[1..], us);
      GlueAssociates(d, Takes(d.h, ts[1..]), Takes(Takes(h, ts).h, us));
    }
  }

  lemma {:induction false} FlattenJoin(a: seq<Bytes>, b: seq<Bytes>)
    ensures Flatten(a + b) == Flatten(a) + Flatten(b)
  {
    if a == [] {
      assert [] + b == b;
    } else {
      assert (a + b)[1..] == a[1..] + b;
      FlattenJoin(a[1..], b);
    }
  }

  lemma {:induction false} FeedAsTakes(h: Held, data: Bytes) returns (ts: seq<Bytes>)
    requires Tidy(h) && Settled(h)
    ensures Legal(h, ts) && Flatten(ts) == data && Takes(h, ts) == Feed(h, data)
    decreases |data|
  {
    hide Take, Room, Settled, Tidy;
    ts := [];
    if data != [] {
      var k := if Room(h) < |data| then Room(h) else |data|;
      var more := FeedAsTakes(Take(h, data[..k]).h, data[k..]);
      ts := [data[..k]] + more;
      assert ts[1..] == more;
      assert data[..k] + data[k..] == data;
    }
  }

  lemma {:induction false} FeedsAsTakes(h: Held, chunks: seq<Bytes>) returns (ts: seq<Bytes>)
    requires Tidy(h) && Settled(h)
    ensures Legal(h, ts) && Flatten(ts) == Flatten(chunks) && Takes(h, ts) == Feeds(h, chunks)
    decreases |chunks|
  {
    hide Feed, Takes, Legal, Settled, Tidy;
    if chunks == [] {
      NoTakes(h);
      ts := [];
    } else {
      var first := FeedAsTakes(h, chunks[0]);
      var more := FeedsAsTakes(Feed(h, chunks[0]).h, chunks[1..]);
      ts := first + more;
      TakesJoin(h, first, more);
      FlattenJoin(first, more);
    }
  }

  lemma NoTakes(h: Held)
    requires Tidy(h) && Settled(h)
    ensures Legal(h, []) && Takes(h, []) == Nothing(h)
  {}

  // A single take is a feed of its own.
  lemma {:induction false} TakesAsFeeds(h: Held, ts: seq<Bytes>)
    requires Tidy(h) && Settled(h) && Legal(h, ts)
    ensures Feeds(h, ts) == Takes(h, ts)
    decreases |ts|
  {
    hide Take, Room, Settled, Tidy;
    if ts != [] {
      var d := Take(h, ts[0]);
      assert ts[0][..|ts[0]|] == ts[0] && ts[0][|ts[0]|..] == [];
      assert Feed(d.h, []) == Nothing(d.h);
      assert Feed(h, ts[0]) == Glue(d, Nothing(d.h));
      assert Glue(d, Nothing(d.h)) == d;
      TakesAsFeeds(d.h, ts[1..]);
    }
  }

  // ---- what can come of what follows a position -----------------------------------------------------------

  // The scanner at a position of the stream: its sync, and how many bytes from there on it has in view.
  datatype Look = Look(locked: bool, seen: nat)

  predicate Sensible(rest: Bytes, x: Look) {
    x.seen <= |rest| && x.seen <= SCAN_CAP
  }

  // The decision is taken with w bytes in view: those seen if they are enough, or else some more.
  predicate Ready(rest: Bytes, x: Look, w: nat)
    requires Sensible(rest, x)
  {
    && 0 < w <= |rest| && w <= SCAN_CAP && !Decide(rest[..w], x.locked).Wait?
    && if x.seen > 0 && !Decide(rest[..x.seen], x.locked).Wait? then w == x.seen else x.seen < w
  }

  // Where the scanner is after it: a tag that outruns what is in view costs the sync.
  function Onward(rest: Bytes, x: Look, w: nat): (y: Look)
    requires Sensible(rest, x) && Ready(rest, x, w)
    requires Size(Decide(rest, x.locked)) <= |rest|
    ensures Sensible(rest[Size(Decide(rest, x.locked))..], y)
  {
    assert rest == rest[..w] + rest[w..];
    DecideMonotone(rest[..w], rest[w..], x.locked);
    match Decide(rest, x.locked)
    case Frame(len) => Look(true, w - len)
    case Junk(lost) => Look(x.locked && !lost, w - 1)
    case Tag(len) => if len <= w then Look(x.locked, w - len) else Look(false, 0)
    case Wait => x
  }

  // The outcomes some cutting of the rest leads to.
  ghost predicate Possible(rest: Bytes, x: Look, d: Done)
    requires Sensible(rest, x)
    decreases |rest|
  {
    if rest == [] || Decide(rest, x.locked).Wait? then
      d.choices == [] && d.frames == [] && d.h.buf == rest && d.h.skipLeft == 0
    else
      exists w, e :: Follows(rest, x, w, d, e)
  }

  // e is what comes after the first decision.
  ghost predicate Follows(rest: Bytes, x: Look, w: nat, d: Done, e: Done)
    requires Sensible(rest, x) && rest != [] && !Decide(rest, x.locked).Wait?
    decreases |rest|, 0
  {
    var c := Decide(rest, x.locked);
    && Ready(rest, x, w)
    && d.choices == [c] + e.choices && d.frames == FrameOf(rest, c) + e.frames
    && d.h.buf == e.h.buf && d.h.skipLeft == e.h.skipLeft
    && if Size(c) > |rest| then e.choices == [] && e.frames == [] && e.h.buf == [] && e.h.skipLeft == Size(c) - |rest|
       else Possible(rest[Size(c)..], Onward(rest, x, w), e)
  }

  // Something can be decided once all there is, or all that fits, is in view.
  lemma SomeReady(rest: Bytes, x: Look) returns (w: nat)
    requires Sensible(rest, x) && rest != [] && !Decide(rest, x.locked).Wait?
    ensures Ready(rest, x, w)
  {
    if x.seen > 0 && !Decide(rest[..x.seen], x.locked).Wait? {
      w := x.seen;
    } else {
      w := if |rest| < SCAN_CAP then |rest| else SCAN_CAP;
      if Decide(rest[..w], x.locked).Wait? { WaitsAreShort(rest[..w], x.locked); }
      assert rest[..|rest|] == rest;
    }
  }

  lemma {:induction false} SomePossible(rest: Bytes, x: Look) returns (d: Done)
    requires Sensible(rest, x)
    ensures Possible(rest, x, d)
    decreases |rest|
  {
    if rest == [] || Decide(rest, x.locked).Wait? {
      d := Nothing(Held(rest, 0, x.locked));
    } else {
      var w := SomeReady(rest, x);
      var c := Decide(rest, x.locked);
      var e: Done;
      if Size(c) > |rest| {
        e := Nothing(Held([], Size(c) - |rest|, x.locked));
      } else {
        e := SomePossible(rest[Size(c)..], Onward(rest, x, w));
      }
      d := Glue(Done([c], FrameOf(rest, c), FRESH), e);
      assert Follows(rest, x, w, d, e);
    }
  }

  // ---- every series of takes leads to a possible outcome -----------------------------------------------------

  // Undecided with what is seen, the scanner does the same as if it had seen more from the start.
  lemma LaterLook(rest: Bytes, x: Look, y: Look, d: Done)
    requires Sensible(rest, x) && Sensible(rest, y) && x.locked == y.locked && x.seen < y.seen
    requires x.seen == 0 || Decide(rest[..x.seen], x.locked).Wait?
    requires Possible(rest, y, d)
    ensures Possible(rest, x, d)
  {
    hide Decide;
    if rest != [] && !Decide(rest, x.locked).Wait? {
      var w, e :| Follows(rest, y, w, d, e);
      assert Ready(rest, x, w);
      assert Size(Decide(rest, x.locked)) <= |rest| ==> Onward(rest, x, w) == Onward(rest, y, w);
      hide Ready, Onward;
      assert Follows(rest, x, w, d, e);
    }
  }

  // While a tag is being passed over, takes only count down.
  lemma {:induction false} SkipTakes(k: nat, locked: bool, ts: seq<Bytes>, bytes: Bytes) returns (vs: seq<Bytes>)
    requires k > 0 && Legal(Held([], k, locked), ts) && Flatten(ts) == bytes
    ensures |bytes| < k ==> Takes(Held([], k, locked), ts) == Nothing(Held([], k - |bytes|, locked))
    ensures |bytes| >= k ==>
      Legal(FRESH, vs) && Flatten(vs) == bytes[k..] && Takes(Held([], k, locked), ts) == Takes(FRESH, vs)
    decreases |ts|
  {
    vs := [];
    if ts != [] {
      var n := |ts[0]|;
      assert bytes[n..] == Flatten(ts[1..]);
      GlueAssociates(Nothing(FRESH), Takes(Take(Held([], k, locked), ts[0]).h, ts[1..]), Nothing(FRESH));
      if n == k {
        vs := ts[1..];
      } else {
        vs := SkipTakes(k - n, locked, ts[1..], bytes[n..]);
        if |bytes| >= k { assert bytes[n..][k - n..] == bytes[k..]; }
      }
    }
  }

  // What the scanner makes at once of the bytes in view.
  function Seen(rest: Bytes, x: Look): (d: Done)
    requires Sensible(rest, x)
    ensures Tidy(d.h) && Settled(d.h)
  {
    Drain(Held(rest[..x.seen], 0, x.locked))
  }

  lemma SeenUndecided(rest: Bytes, x: Look)
    requires Sensible(rest, x) && (x.seen == 0 || Decide(rest[..x.seen], x.locked).Wait?)
    ensures Seen(rest, x) == Nothing(Held(rest[..x.seen], 0, x.locked))
    ensures x.seen < SCAN_CAP && Room(Held(rest[..x.seen], 0, x.locked)) == SCAN_CAP - x.seen
  {
    if x.seen > 0 { WaitsAreShort(rest[..x.seen], x.locked); }
  }

  // A decision on what is seen: the tag outruns it, or the rest of it remains.
  lemma SeenDecided(rest: Bytes, x: Look)
    requires Sensible(rest, x) && x.seen > 0 && !Decide(rest[..x.seen], x.locked).Wait?
    ensures Decide(rest, x.locked) == Decide(rest[..x.seen], x.locked) && Ready(rest, x, x.seen)
    ensures var c := Decide(rest, x.locked);
      if Size(c) > x.seen
      then c.Tag? && Seen(rest, x) == Glue(First(rest, c), Nothing(Held([], Size(c) - x.seen, x.locked)))
      else Seen(rest, x) == Glue(First(rest, c), Seen(rest[Size(c)..], Onward(rest, x, x.seen)))
  {
    var view := rest[..x.seen];
    assert rest == view + rest[x.seen..];
    DecideMonotone(view, rest[x.seen..], x.locked);
    var c := Decide(rest, x.locked);
    hide Decide;
    var h := Held(view, 0, x.locked);
    DrainTurns(h);
    TurnSeen(rest, x);
    hide Drain, Turn;
    if Size(c) > x.seen { NothingMore(Turn(h).h); }
    var rest' := Drain(Turn(h).h);
    assert Glue(Turn(h), rest') == Glue(First(rest, c), rest');
  }

  lemma DrainTurns(h: Held)
    requires Tidy(h) && h.buf != [] && !Waiting(h)
    ensures Drain(h) == Glue(Turn(h), Drain(Turn(h).h))
  {
    hide Waiting, Turn;
  }

  lemma NothingMore(h: Held)
    requires h.buf == []
    ensures Drain(h) == Nothing(h)
  {}

  lemma TurnSeen(rest: Bytes, x: Look)
    requires Sensible(rest, x) && x.seen > 0 && !Decide(rest[..x.seen], x.locked).Wait? && Ready(rest, x, x.seen)
    requires Decide(rest, x.locked) == Decide(rest[..x.seen], x.locked)
    ensures var c := Decide(rest, x.locked);
      var d := Turn(Held(rest[..x.seen], 0, x.locked));
      && d.choices == [c] && d.frames == FrameOf(rest, c)
      && (if Size(c) > x.seen then c.Tag? && d.h == Held([], Size(c) - x.seen, x.locked)
          else
            var y := Onward(rest, x, x.seen);
            d.h == Held(rest[Size(c)..][..y.seen], 0, y.locked))
  {
    hide Decide;
    var view, c := rest[..x.seen], Decide(rest, x.locked);
    assert c.Frame? ==> view[..c.len] == rest[..c.len];
    if Size(c) <= x.seen {
      OnwardSeen(rest, x);
      assert view[Size(c)..] == rest[Size(c)..][..x.seen - Size(c)];
    }
    hide Ready;
  }

  lemma {:induction false} TakesPossible(rest: Bytes, x: Look, ts: seq<Bytes>)
    requires Sensible(rest, x) && Legal(Seen(rest, x).h, ts) && Flatten(ts) == rest[x.seen..]
    ensures Possible(rest, x, Glue(Seen(rest, x), Takes(Seen(rest, x).h, ts)))
    decreases |rest|, |ts|
  {
    hide Decide, Drain, Settled, Seen;
    var s := Seen(rest, x);
    var d := Glue(s, Takes(s.h, ts));
    if x.seen == 0 || Decide(rest[..x.seen], x.locked).Wait? {
      SeenUndecided(rest, x);
      if ts == [] {
        assert rest[x.seen..] == [] && rest[..x.seen] == rest;
      } else {
        UndecidedTakes(rest, x, ts);
      }
    } else {
      SeenDecided(rest, x);
      DecidedTakes(rest, x, ts);
    }
  }

  lemma {:induction false} UndecidedTakes(rest: Bytes, x: Look, ts: seq<Bytes>)
    requires Sensible(rest, x) && Legal(Seen(rest, x).h, ts) && Flatten(ts) == rest[x.seen..] && ts != []
    requires x.seen == 0 || Decide(rest[..x.seen], x.locked).Wait?
    ensures Possible(rest, x, Glue(Seen(rest, x), Takes(Seen(rest, x).h, ts)))
    decreases |rest|, |ts|, 0
  {
    hide Decide, Drain, Settled;
    SeenUndecided(rest, x);
    var y := Look(x.locked, x.seen + |ts[0]|);
    var h := Held(rest[..x.seen], 0, x.locked);
    assert rest[..x.seen] + ts[0] == rest[..y.seen] && Flatten(ts[1..]) == rest[y.seen..];
    assert Take(h, ts[0]) == Seen(rest, y);
    GlueAssociates(Seen(rest, x), Takes(h, ts), Takes(h, ts));
    hide Seen, Take, Possible;
    TakesPossible(rest, y, ts[1..]);
    LaterLook(rest, x, y, Glue(Seen(rest, y), Takes(Seen(rest, y).h, ts[1..])));
  }

  lemma {:induction false} DecidedTakes(rest: Bytes, x: Look, ts: seq<Bytes>)
    requires Sensible(rest, x) && Legal(Seen(rest, x).h, ts) && Flatten(ts) == rest[x.seen..]
    requires x.seen > 0 && !Decide(rest[..x.seen], x.locked).Wait?
    ensures Possible(rest, x, Glue(Seen(rest, x), Takes(Seen(rest, x).h, ts)))
    decreases |rest|, |ts|, 1
  {
    SeenDecided(rest, x);
    hide Decide, Drain, Settled, Seen, Takes, Possible, Onward, Ready;
    if Size(Decide(rest, x.locked)) <= x.seen { GoesOn(rest, x, ts); } else { Outran(rest, x, ts); }
  }

  // The first decision, in front of what follows it.
  function First(rest: Bytes, c: Choice): Done
    requires c.Frame? ==> c.len <= |rest|
  {
    Done([c], FrameOf(rest, c), FRESH)
  }

  lemma FollowedBy(rest: Bytes, x: Look, e: Done)
    requires Sensible(rest, x) && rest != [] && !Decide(rest, x.locked).Wait? && Ready(rest, x, x.seen)
    requires var c := Decide(rest, x.locked);
      if Size(c) > |rest| then e.choices == [] && e.frames == [] && e.h.buf == [] && e.h.skipLeft == Size(c) - |rest|
      else Possible(rest[Size(c)..], Onward(rest, x, x.seen), e)
    ensures Possible(rest, x, Glue(First(rest, Decide(rest, x.locked)), e))
  {
    hide Decide, Ready, Onward;
    assert Follows(rest, x, x.seen, Glue(First(rest, Decide(rest, x.locked)), e), e);
  }

  lemma {:induction false} GoesOn(rest: Bytes, x: Look, ts: seq<Bytes>)
    requires Sensible(rest, x) && Legal(Seen(rest, x).h, ts) && Flatten(ts) == rest[x.seen..]
    requires x.seen > 0 && !Decide(rest, x.locked).Wait? && Ready(rest, x, x.seen)
    requires Size(Decide(rest, x.locked)) <= x.seen
    requires var c := Decide(rest, x.locked);
      Seen(rest, x) == Glue(First(rest, c), Seen(rest[Size(c)..], Onward(rest, x, x.seen)))
    ensures Possible(rest, x, Glue(Seen(rest, x), Takes(Seen(rest, x).h, ts)))
    decreases |rest|, |ts|, 0
  {
    var c, y := Decide(rest, x.locked), Onward(rest, x, x.seen);
    var rest' := rest[Size(c)..];
    assert y.seen == x.seen - Size(c);
    assert rest'[y.seen..] == rest[x.seen..];
    hide Decide, Drain, Settled, Seen, Takes, Possible, Onward, Ready;
    TakesPossible(rest', y, ts);
    var e := Glue(Seen(rest', y), Takes(Seen(rest, x).h, ts));
    GlueAssociates(First(rest, c), Seen(rest', y), Takes(Seen(rest, x).h, ts));
    FollowedBy(rest, x, e);
  }

  lemma {:induction false} Outran(rest: Bytes, x: Look, ts: seq<Bytes>)
    requires Sensible(rest, x) && Legal(Seen(rest, x).h, ts) && Flatten(ts) == rest[x.seen..]
    requires x.seen > 0 && Decide(rest, x.locked).Tag? && Ready(rest, x, x.seen)
    requires Size(Decide(rest, x.locked)) > x.seen
    requires var c := Decide(rest, x.locked);
      Seen(rest, x) == Glue(First(rest, c), Nothing(Held([], Size(c) - x.seen, x.locked)))
    ensures Possible(rest, x, Glue(Seen(rest, x), Takes(Seen(rest, x).h, ts)))
    decreases |rest|, |ts|, 0
  {
    var c := Decide(rest, x.locked);
    var h := Held([], Size(c) - x.seen, x.locked);
    hide Decide, Drain, Settled, Seen, Takes, Possible, Onward, Ready, Legal, Flatten;
    var vs := SkipTakes(Size(c) - x.seen, x.locked, ts, rest[x.seen..]);
    GlueAssociates(First(rest, c), Nothing(h), Takes(h, ts));
    GlueAssociates(Nothing(h), Takes(h, ts), Takes(h, ts));
    var e := Takes(h, ts);
    if Size(c) <= |rest| {
      LostOnward(rest, x);
      hide *;
      AfterSkip(rest, x, vs);
    }
    hide *;
    FollowedBy(rest, x, e);
  }

  lemma LostOnward(rest: Bytes, x: Look)
    requires Sensible(rest, x) && rest != [] && Decide(rest, x.locked).Tag? && Ready(rest, x, x.seen)
    requires x.seen < Size(Decide(rest, x.locked)) <= |rest|
    ensures Onward(rest, x, x.seen) == Look(false, 0)
  {
    hide Decide, Ready;
  }

  lemma {:induction false} AfterSkip(rest: Bytes, x: Look, vs: seq<Bytes>)
    requires Sensible(rest, x) && rest != [] && x.seen < Size(Decide(rest, x.locked)) <= |rest|
    requires Legal(FRESH, vs) && Flatten(vs) == rest[x.seen..][Size(Decide(rest, x.locked)) - x.seen..]
    ensures Possible(rest[Size(Decide(rest, x.locked))..], Look(false, 0), Takes(FRESH, vs))
    decreases |rest| - Size(Decide(rest, x.locked))
  {
    var n := Size(Decide(rest, x.locked));
    var rest' := rest[n..];
    hide Decide, Legal, Takes, Flatten, Possible;
    StartSees(rest');
    assert rest[x.seen..][n - x.seen..] == rest';
    hide *;
    TakesPossible(rest', Look(false, 0), vs);
    GlueAssociates(Nothing(FRESH), Takes(FRESH, vs), Takes(FRESH, vs));
  }

  // ---- every possible outcome comes of some series of takes ----------------------------------------------------

  // Takes after what is seen at once.
  predicate LegalFrom(rest: Bytes, x: Look, ts: seq<Bytes>)
    requires Sensible(rest, x)
  {
    Legal(Seen(rest, x).h, ts) && Flatten(ts) == rest[x.seen..]
  }

  function From(rest: Bytes, x: Look, ts: seq<Bytes>): Done
    requires Sensible(rest, x) && LegalFrom(rest, x, ts)
  {
    Glue(Seen(rest, x), Takes(Seen(rest, x).h, ts))
  }

  lemma {:induction false} Realized(rest: Bytes, x: Look, d: Done) returns (ts: seq<Bytes>)
    requires Sensible(rest, x) && Possible(rest, x, d)
    ensures LegalFrom(rest, x, ts) && Agree(From(rest, x, ts), d)
    decreases |rest|, 3
  {
    hide Decide, Seen, LegalFrom, Ready;
    if rest == [] || Decide(rest, x.locked).Wait? {
      ts := AllWaits(rest, x);
    } else {
      var w, e :| Follows(rest, x, w, d, e);
      assert Follows(rest, x, w, d, e);
      hide Possible;
      ts := RealizedStep(rest, x, w, d, e);
    }
  }

  // One more take in front, and one alone.
  lemma TakesCons(h: Held, b: Bytes, us: seq<Bytes>)
    requires Tidy(h) && Settled(h) && 0 < |b| <= Room(h) && Legal(Take(h, b).h, us)
    ensures Legal(h, [b] + us) && Takes(h, [b] + us) == Glue(Take(h, b), Takes(Take(h, b).h, us))
    ensures Flatten([b] + us) == b + Flatten(us)
  {
    assert ([b] + us)[1..] == us;
    hide Take, Room, Settled;
  }

  lemma TakesOne(h: Held, b: Bytes)
    requires Tidy(h) && Settled(h) && 0 < |b| <= Room(h)
    ensures Legal(h, [b]) && Takes(h, [b]) == Take(h, b) && Flatten([b]) == b
  {
    NoTakes(Take(h, b).h);
    TakesCons(h, b, []);
    hide Take, Room, Settled, Takes, Legal;
    assert [b] + [] == [b] && b + [] == b;
    assert Glue(Take(h, b), Nothing(Take(h, b).h)) == Take(h, b);
  }

  // Nothing can be decided: the rest comes in one take, if there is any.
  lemma AllWaits(rest: Bytes, x: Look) returns (ts: seq<Bytes>)
    requires Sensible(rest, x) && (rest == [] || Decide(rest, x.locked).Wait?)
    ensures LegalFrom(rest, x, ts)
    ensures From(rest, x, ts).choices == [] && From(rest, x, ts).frames == []
    ensures From(rest, x, ts).h.buf == rest && From(rest, x, ts).h.skipLeft == 0
  {
    var view := rest[..x.seen];
    assert rest == view + rest[x.seen..];
    if view != [] && !Decide(view, x.locked).Wait? { DecideMonotone(view, rest[x.seen..], x.locked); }
    SeenUndecided(rest, x);
    var h := Held(view, 0, x.locked);
    hide Decide, Settled;
    if x.seen == |rest| {
      ts := [];
      NoTakes(h);
      assert Flatten<byte>([]) == [] && view == rest;
    } else {
      WaitsAreShort(rest, x.locked);
      ts := [rest[x.seen..]];
      assert Take(h, ts[0]) == Drain(Held(rest, 0, x.locked)) == Nothing(Held(rest, 0, x.locked));
      TakesOne(h, ts[0]);
    }
    hide Takes, Legal, Drain, Take;
  }

  lemma {:induction false} RealizedStep(rest: Bytes, x: Look, w: nat, d: Done, e: Done) returns (ts: seq<Bytes>)
    requires Sensible(rest, x) && rest != [] && !Decide(rest, x.locked).Wait? && Follows(rest, x, w, d, e)
    ensures LegalFrom(rest, x, ts) && Agree(From(rest, x, ts), d)
    decreases |rest|, 2
  {
    hide Decide, Possible, LegalFrom, Drain, Settled, Legal, Takes;
    var y := Look(x.locked, w);
    assert Follows(rest, y, w, d, e);
    ts := RealizedReady(rest, y, d, e);
    if x.seen == 0 || Decide(rest[..x.seen], x.locked).Wait? {
      SeenUndecided(rest, x);
      ts := OneMoreTake(rest, x, y, ts);
    }
  }

  // A take up to a later look, in front of the takes from there.
  lemma OneMoreTake(rest: Bytes, x: Look, y: Look, us: seq<Bytes>) returns (ts: seq<Bytes>)
    requires Sensible(rest, x) && Sensible(rest, y) && x.locked == y.locked && x.seen < y.seen
    requires x.seen == 0 || Decide(rest[..x.seen], x.locked).Wait?
    requires LegalFrom(rest, y, us)
    ensures LegalFrom(rest, x, ts) && From(rest, x, ts) == From(rest, y, us)
  {
    SeenUndecided(rest, x);
    hide Decide, Settled, Legal, Takes, Drain;
    var b := rest[x.seen..y.seen];
    var h := Held(rest[..x.seen], 0, x.locked);
    ts := [b] + us;
    Pieces(rest, x.seen, y.seen);
    assert Take(h, b) == Seen(rest, y);
    hide *;
    TakesCons(h, b, us);
    TakenFirst(rest, x, h, y, b, us);
  }

  lemma Pieces(s: Bytes, a: nat, b: nat)
    requires a <= b <= |s|
    ensures s[..a] + s[a..b] == s[..b] && s[a..b] + s[b..] == s[a..]
  {}

  lemma TakenFirst(rest: Bytes, x: Look, h: Held, y: Look, b: Bytes, us: seq<Bytes>)
    requires Sensible(rest, x) && Sensible(rest, y) && Seen(rest, x) == Nothing(h)
    requires Tidy(h) && Settled(h) && 0 < |b| <= Room(h) && Take(h, b) == Seen(rest, y) && LegalFrom(rest, y, us)
    requires b + rest[y.seen..] == rest[x.seen..]
    requires Legal(h, [b] + us) && Takes(h, [b] + us) == Glue(Take(h, b), Takes(Take(h, b).h, us))
    requires Flatten([b] + us) == b + Flatten(us)
    ensures LegalFrom(rest, x, [b] + us) && From(rest, x, [b] + us) == From(rest, y, us)
  {
    hide Seen, Take, Room, Legal, Takes, Flatten, Settled;
    GlueAssociates(Nothing(h), Takes(h, [b] + us), Takes(h, [b] + us));
  }

  lemma {:induction false} RealizedReady(rest: Bytes, x: Look, d: Done, e: Done) returns (ts: seq<Bytes>)
    requires Sensible(rest, x) && rest != [] && !Decide(rest, x.locked).Wait? && Follows(rest, x, x.seen, d, e)
    ensures LegalFrom(rest, x, ts) && Agree(From(rest, x, ts), d)
    decreases |rest|, 1
  {
    SeenDecided(rest, x);
    var c := Decide(rest, x.locked);
    hide Decide, Possible, Ready, Drain, Settled, Seen;
    if Size(c) <= x.seen {
      var y := Onward(rest, x, x.seen);
      var rest' := rest[Size(c)..];
      ts := Realized(rest', y, e);
      assert y.seen == x.seen - Size(c) by { OnwardSeen(rest, x); }
      assert rest'[y.seen..] == rest[x.seen..];
      hide Onward, Legal, Takes;
      GlueAssociates(First(rest, c), Seen(rest', y), Takes(Seen(rest, x).h, ts));
    } else if Size(c) > |rest| {
      ts := RestSkipped(rest, x);
    } else {
      ts := TailSkipped(rest, x, e);
    }
  }

  lemma OnwardSeen(rest: Bytes, x: Look)
    requires Sensible(rest, x) && Ready(rest, x, x.seen) && Size(Decide(rest, x.locked)) <= x.seen
    requires rest != [] && !Decide(rest, x.locked).Wait?
    ensures Onward(rest, x, x.seen).seen == x.seen - Size(Decide(rest, x.locked))
  {
    hide Decide;
  }

  // What is left of a tag that outran what was seen goes by in takes that only count down.
  lemma TagTaken(rest: Bytes, x: Look, first: Done, h: Held, ts: seq<Bytes>)
    requires Sensible(rest, x) && Tidy(h) && Settled(h) && Seen(rest, x) == Glue(first, Nothing(h))
    requires Legal(h, ts) && Flatten(ts) == rest[x.seen..]
    ensures LegalFrom(rest, x, ts) && From(rest, x, ts) == Glue(first, Takes(h, ts))
  {
    hide Seen, Takes, Legal, Flatten, Settled, Tidy;
    GlueAssociates(first, Nothing(h), Takes(h, ts));
    GlueAssociates(Nothing(h), Takes(h, ts), Takes(h, ts));
  }

  lemma PassedShort(k: nat, locked: bool, tail: Bytes) returns (ts: seq<Bytes>)
    requires |tail| < k
    ensures Legal(Held([], k, locked), ts) && Flatten(ts) == tail
    ensures Takes(Held([], k, locked), ts) == Nothing(Held([], k - |tail|, locked))
  {
    var h := Held([], k, locked);
    hide Takes, Legal;
    if tail == [] {
      ts := [];
      NoTakes(h);
    } else {
      ts := [tail];
      TakesOne(h, tail);
    }
  }

  lemma PassedWhole(k: nat, locked: bool, b: Bytes, us: seq<Bytes>)
    requires |b| == k > 0 && Legal(FRESH, us)
    ensures Legal(Held([], k, locked), [b] + us) && Flatten([b] + us) == b + Flatten(us)
    ensures Takes(Held([], k, locked), [b] + us) == Takes(FRESH, us)
  {
    var h := Held([], k, locked);
    hide Takes, Legal, Flatten;
    assert Take(h, b) == Nothing(FRESH);
    TakesCons(h, b, us);
    GlueAssociates(Nothing(FRESH), Takes(FRESH, us), Takes(FRESH, us));
  }

  // A tag whose end does not come: what there is of it goes in one take.
  lemma RestSkipped(rest: Bytes, x: Look) returns (ts: seq<Bytes>)
    requires Sensible(rest, x) && rest != [] && Decide(rest, x.locked).Tag? && Size(Decide(rest, x.locked)) > |rest|
    requires var c := Decide(rest, x.locked);
      Seen(rest, x) == Glue(First(rest, c), Nothing(Held([], Size(c) - x.seen, x.locked)))
    ensures LegalFrom(rest, x, ts)
    ensures var c := Decide(rest, x.locked);
      From(rest, x, ts) == Glue(First(rest, c), Nothing(Held([], Size(c) - |rest|, x.locked)))
  {
    hide Decide, Seen, Takes, Legal, Flatten, LegalFrom, From;
    var c := Decide(rest, x.locked);
    ts := PassedShort(Size(c) - x.seen, x.locked, rest[x.seen..]);
    TagTaken(rest, x, First(rest, c), Held([], Size(c) - x.seen, x.locked), ts);
  }

  // A tag that outruns what is seen: the rest of it goes in one take.
  lemma {:induction false} TailSkipped(rest: Bytes, x: Look, e: Done) returns (ts: seq<Bytes>)
    requires Sensible(rest, x) && rest != [] && Decide(rest, x.locked).Tag? && Ready(rest, x, x.seen)
    requires x.seen < Size(Decide(rest, x.locked)) <= |rest|
    requires var c := Decide(rest, x.locked);
      Seen(rest, x) == Glue(First(rest, c), Nothing(Held([], Size(c) - x.seen, x.locked)))
    requires Possible(rest[Size(Decide(rest, x.locked))..], Onward(rest, x, x.seen), e)
    ensures LegalFrom(rest, x, ts)
    ensures Agree(From(rest, x, ts), Glue(First(rest, Decide(rest, x.locked)), e))
    decreases |rest|, 0
  {
    hide Decide, Possible, Onward, Ready, Seen, Takes, Legal, Flatten, LegalFrom, From, Agree;
    var c := Decide(rest, x.locked);
    var n := Size(c);
    LostOnward(rest, x);
    var us := Realized(rest[n..], Look(false, 0), e);
    FromStart(rest[n..], us);
    var b := rest[x.seen..n];
    ts := [b] + us;
    PassedWhole(n - x.seen, x.locked, b, us);
    Pieces(rest, x.seen, n);
    TagTaken(rest, x, First(rest, c), Held([], n - x.seen, x.locked), ts);
    AgreeBehind(First(rest, c), Takes(FRESH, us), e);
  }

  lemma FromStart(rest: Bytes, us: seq<Bytes>)
    requires LegalFrom(rest, Look(false, 0), us)
    ensures Legal(FRESH, us) && Flatten(us) == rest && From(rest, Look(false, 0), us) == Takes(FRESH, us)
  {
    SeenUndecided(rest, Look(false, 0));
    hide Seen, Takes, Legal, Flatten;
    assert rest[..0] == [] && rest[0..] == rest;
    GlueAssociates(Nothing(FRESH), Takes(FRESH, us), Takes(FRESH, us));
  }

  lemma AgreeBehind(first: Done, a: Done, b: Done)
    requires Agree(a, b)
    ensures Agree(Glue(first, a), Glue(first, b))
  {}

  // ---- exactly which streams are cut alike ---------------------------------------------------------------------

  ghost predicate AllSensible(rest: Bytes, looks: set<Look>) {
    forall x | x in looks :: Sensible(rest, x)
  }

  // Where the scanner can be after the next decision, when it can be at any of these looks before it.
  ghost function AllOnward(rest: Bytes, looks: set<Look>, n: nat): (ys: set<Look>)
    requires AllSensible(rest, looks) && rest != [] && n <= |rest|
    requires forall x | x in looks :: Size(Decide(rest, x.locked)) == n
    ensures AllSensible(rest[n..], ys)
  {
    set x, w: nat | x in looks && w <= SCAN_CAP && Ready(rest, x, w) :: Onward(rest, x, w)
  }

  // Every look that some cutting leads to decides alike, here and all the way on.
  ghost predicate Unmoved(rest: Bytes, looks: set<Look>)
    requires AllSensible(rest, looks)
    decreases |rest|
  {
    rest == [] || looks == {} ||
    var x :| x in looks;
    var c := Decide(rest, x.locked);
    && (forall y | y in looks :: Decide(rest, y.locked) == c)
    && (c.Wait? || Size(c) > |rest| || Unmoved(rest[Size(c)..], AllOnward(rest, looks, Size(c))))
  }

  lemma UnmovedUnfolds(rest: Bytes, looks: set<Look>, x: Look)
    requires AllSensible(rest, looks) && rest != [] && x in looks
    ensures var c := Decide(rest, x.locked);
      Unmoved(rest, looks) <==>
        && (forall y | y in looks :: Decide(rest, y.locked) == c)
        && (c.Wait? || Size(c) > |rest| || Unmoved(rest[Size(c)..], AllOnward(rest, looks, Size(c))))
  {
    hide Decide, Ready, Onward, AllOnward;
  }

  lemma {:induction false} UnmovedAgree(rest: Bytes, looks: set<Look>, x: Look, d: Done, y: Look, e: Done)
    requires AllSensible(rest, looks) && Unmoved(rest, looks) && x in looks && y in looks
    requires Possible(rest, x, d) && Possible(rest, y, e)
    ensures Agree(d, e)
    decreases |rest|
  {
    if rest != [] {
      UnmovedUnfolds(rest, looks, x);
      hide Decide, Ready, Onward, Unmoved;
      var c := Decide(rest, x.locked);
      assert c == Decide(rest, y.locked);
      if !c.Wait? {
        var w, d' :| Follows(rest, x, w, d, d');
        var v, e' :| Follows(rest, y, v, e, e');
        hide Possible;
        if Size(c) <= |rest| {
          var n := Size(c);
          InAllOnward(rest, looks, n, x, w);
          InAllOnward(rest, looks, n, y, v);
          hide AllOnward;
          UnmovedAgree(rest[n..], AllOnward(rest, looks, n), Onward(rest, x, w), d', Onward(rest, y, v), e');
        }
      }
    }
  }

  lemma InAllOnward(rest: Bytes, looks: set<Look>, n: nat, x: Look, w: nat)
    requires AllSensible(rest, looks) && rest != [] && n <= |rest|
    requires forall y | y in looks :: Size(Decide(rest, y.locked)) == n
    requires x in looks && Ready(rest, x, w)
    ensures Onward(rest, x, w) in AllOnward(rest, looks, n)
  {
    assert w <= SCAN_CAP;
    hide Decide, Onward;
  }

  lemma FirstChoice(rest: Bytes, x: Look, d: Done)
    requires Sensible(rest, x) && rest != [] && Possible(rest, x, d)
    ensures if Decide(rest, x.locked).Wait? then d.choices == []
            else d.choices != [] && d.choices[0] == Decide(rest, x.locked)
  {
    if !Decide(rest, x.locked).Wait? {
      var w, e :| Follows(rest, x, w, d, e);
    }
  }

  lemma {:induction false} MovedDisagree(rest: Bytes, looks: set<Look>) returns (x: Look, d: Done, y: Look, e: Done)
    requires AllSensible(rest, looks) && !Unmoved(rest, looks)
    ensures x in looks && y in looks && Possible(rest, x, d) && Possible(rest, y, e) && !Agree(d, e)
    decreases |rest|
  {
    assert rest != [] && looks != {};
    hide *;
    if a, b :| a in looks && b in looks && Decide(rest, a.locked) != Decide(rest, b.locked) {
      x, y := a, b;
      d, e := KindsDisagree(rest, looks, x, y);
    } else {
      var a :| a in looks;
      UnmovedUnfolds(rest, looks, a);
      var n := Size(Decide(rest, a.locked));
      var ahead := AllOnward(rest, looks, n);
      var x', d', y', e' := MovedDisagree(rest[n..], ahead);
      x, d := Behind(rest, looks, n, x', d');
      y, e := Behind(rest, looks, n, y', e');
      StillDisagree(First(rest, Decide(rest, x.locked)), d', e');
    }
  }

  lemma KindsDisagree(rest: Bytes, looks: set<Look>, x: Look, y: Look) returns (d: Done, e: Done)
    requires AllSensible(rest, looks) && rest != [] && x in looks && y in looks
    requires Decide(rest, x.locked) != Decide(rest, y.locked)
    ensures Possible(rest, x, d) && Possible(rest, y, e) && !Agree(d, e)
  {
    hide Decide, Possible;
    d := SomePossible(rest, x);
    e := SomePossible(rest, y);
    FirstChoice(rest, x, d);
    FirstChoice(rest, y, e);
  }

  lemma StillDisagree(first: Done, d: Done, e: Done)
    requires !Agree(d, e)
    ensures !Agree(Glue(first, d), Glue(first, e))
  {
    Cancels(first.choices, d.choices, e.choices);
    Cancels(first.frames, d.frames, e.frames);
  }

  lemma Cancels<T>(a: seq<T>, b: seq<T>, c: seq<T>)
    ensures a + b == a + c <==> b == c
  {
    if a + b == a + c { assert b == (a + b)[|a|..] && c == (a + c)[|a|..]; }
  }

  // An outcome from further on, with the decision before it.
  lemma Behind(rest: Bytes, looks: set<Look>, n: nat, x': Look, d': Done) returns (x: Look, d: Done)
    requires AllSensible(rest, looks) && rest != [] && n <= |rest|
    requires forall y | y in looks :: Size(Decide(rest, y.locked)) == n && !Decide(rest, y.locked).Wait?
    requires forall y, z | y in looks && z in looks :: Decide(rest, y.locked) == Decide(rest, z.locked)
    requires x' in AllOnward(rest, looks, n) && Possible(rest[n..], x', d')
    ensures x in looks && d == Glue(First(rest, Decide(rest, x.locked)), d') && Possible(rest, x, d)
  {
    hide Decide, Possible;
    var w: nat;
    x, w :| x in looks && w <= SCAN_CAP && Ready(rest, x, w) && Onward(rest, x, w) == x';
    hide Ready, Onward;
    d := Glue(First(rest, Decide(rest, x.locked)), d');
    Precedes(rest, x, w, d, d');
  }

  lemma Precedes(rest: Bytes, x: Look, w: nat, d: Done, e: Done)
    requires Sensible(rest, x) && rest != [] && !Decide(rest, x.locked).Wait? && Follows(rest, x, w, d, e)
    ensures Possible(rest, x, d)
  {
    hide Decide, Follows;
  }

  const START := {Look(false, 0)}

  lemma StartSees(input: Bytes)
    ensures Sensible(input, Look(false, 0)) && Seen(input, Look(false, 0)) == Nothing(FRESH)
    ensures input[0..] == input
  {
    assert input[..0] == [];
  }

  /** All cuttings of a stream give a fresh scanner the same decisions and frames, the same bytes held back and
      the same number still to skip, if and only if it is unmoved by cuttings. */
  lemma CuttingIrrelevantIff(input: Bytes)
    ensures Unmoved(input, START) <==>
      forall a, b | Flatten(a) == input && Flatten(b) == input :: Agree(Feeds(FRESH, a), Feeds(FRESH, b))
  {
    var x := Look(false, 0);
    StartSees(input);
    hide Unmoved, Possible, Decide, Seen, Feeds, Takes, Legal;
    if Unmoved(input, START) {
      forall a, b | Flatten(a) == input && Flatten(b) == input
        ensures Agree(Feeds(FRESH, a), Feeds(FRESH, b))
      {
        FeedsPossible(input, a);
        FeedsPossible(input, b);
        UnmovedAgree(input, START, x, Feeds(FRESH, a), x, Feeds(FRESH, b));
      }
    } else {
      var y, d, z, e := MovedDisagree(input, START);
      var a := PossibleFeeds(input, d);
      var b := PossibleFeeds(input, e);
    }
  }

  lemma FeedsPossible(input: Bytes, chunks: seq<Bytes>)
    requires Flatten(chunks) == input
    ensures Sensible(input, Look(false, 0)) && Possible(input, Look(false, 0), Feeds(FRESH, chunks))
  {
    StartSees(input);
    var ts := FeedsAsTakes(FRESH, chunks);
    hide *;
    TakesPossible(input, Look(false, 0), ts);
    GlueAssociates(Nothing(FRESH), Takes(FRESH, ts), Takes(FRESH, ts));
  }

  lemma PossibleFeeds(input: Bytes, d: Done) returns (chunks: seq<Bytes>)
    requires Sensible(input, Look(false, 0)) && Possible(input, Look(false, 0), d)
    ensures Flatten(chunks) == input && Agree(Feeds(FRESH, chunks), d)
  {
    StartSees(input);
    chunks := Realized(input, Look(false, 0), d);
    hide Possible, Decide, Drain, Feeds, Takes, Legal, Flatten, Seen;
    TakesAsFeeds(FRESH, chunks);
    GlueAssociates(Nothing(FRESH), Takes(FRESH, chunks), Takes(FRESH, chunks));
  }

  // ---- free streams are among them -------------------------------------------------------------------------------

  /** A free stream is unmoved: whatever may have happened to the sync at its tags makes no difference. */
  lemma {:induction false} FreeIsUnmoved(rest: Bytes, looks: set<Look>, a: bool, b: bool)
    requires AllSensible(rest, looks) && forall x | x in looks :: x.locked == a || x.locked == b
    requires CutFree(rest, a || b) && (a != b ==> Neutral(rest))
    ensures Unmoved(rest, looks)
    decreases |rest|
  {
    if rest != [] && looks != {} {
      NeutralDecides(rest, a, b);
      var c := Decide(rest, a);
      var n := Size(c);
      if !c.Wait? && n <= |rest| {
        var ahead := AllOnward(rest, looks, n);
        var lost := c.Junk? && c.unlock;
        var a' := if c.Frame? then true else if c.Junk? then a && !lost else a || b;
        var b' := if c.Frame? then true else if c.Junk? then b && !lost else false;
        forall y | y in ahead
          ensures y.locked == a' || y.locked == b'
        {
          var x, w: nat :| x in looks && w <= SCAN_CAP && Ready(rest, x, w) && Onward(rest, x, w) == y;
        }
        hide Ready, Onward, AllOnward;
        FreeIsUnmoved(rest[n..], ahead, a', b');
      }
    }
  }
}
