/** src/favourites.c: saving as a sequence of file system steps, any of which may fail, and after any of
    which the power may go. */
module Favourites {
  import opened Prelude
  import opened FavFormat

  // The three names fav_save uses: the file itself, ".tmp" and ".bak".
  datatype Name = Main | Tmp | Bak

  // What is on the card under each name; a file being written is some prefix of its content.
  datatype Card = Card(main: Option<string>, tmp: Option<string>, bak: Option<string>)

  function Get(c: Card, n: Name): Option<string> {
    match n
    case Main => c.main
    case Tmp => c.tmp
    case Bak => c.bak
  }

  function With(c: Card, n: Name, f: Option<string>): Card {
    match n
    case Main => c.(main := f)
    case Tmp => c.(tmp := f)
    case Bak => c.(bak := f)
  }

  // A file under some name holds the whole of one of two lists.
  predicate Kept(c: Card, old0: string, new0: string) {
    Complete(c.main, old0, new0) || Complete(c.tmp, old0, new0) || Complete(c.bak, old0, new0)
  }

  predicate Complete(f: Option<string>, old0: string, new0: string) {
    f == Some(old0) || f == Some(new0)
  }

  /** Opening the ".tmp" file empties it, so what keeps a save safe is exactly that the file itself or its
      ".bak" is whole: a whole ".tmp" alone does not. */
  lemma OpeningIsSafeIff(c: Card, old0: string, new0: string)
    requires old0 != "" && new0 != ""
    ensures Kept(c.(tmp := Some("")), old0, new0) <==> Complete(c.main, old0, new0) || Complete(c.bak, old0, new0)
  {}

  // What rename does, if it is allowed to succeed: with replacing semantics it takes the target's place,
  // otherwise it refuses an existing target.
  function Renamed(c: Card, replacing: bool, from: Name, to: Name, lucky: bool): (Card, bool) {
    if lucky && Get(c, from).Some? && (replacing || Get(c, to).None?)
    then (With(With(c, to, Get(c, from)), from, None), true)
    else (c, false)
  }

  // How the steps of one save go: whether the file can be opened, how much gets written before an error
  // (all of it if there is none), whether it can be flushed, and whether each rename and remove works.
  datatype Luck = Luck(opens: bool, written: Option<nat>, flushed: bool, removeTmp: bool,
                       rename1: bool, removeBak: bool, stepAside: bool, rename2: bool, putBack: bool, dropBak: bool)

  // No step fails but a rename that is refused.
  predicate AllWork(luck: Luck) {
    && luck.opens && luck.written.None? && luck.flushed
    && luck.rename1 && luck.removeBak && luck.stepAside && luck.rename2 && luck.dropBak
  }

  // The file after a save that began at before has got anywhere: as it was, or new; or it has stepped aside
  // and the new one has not taken its place yet.
  predicate InPlace(c: Card, before: Card, content: string) {
    || c.main == before.main || c.main == Some(content)
    || (c.main == None && c.bak == before.main && c.tmp == Some(content))
  }

  // The file steps aside: its replacement is written, cannot simply take its place, and ".bak" is free for it.
  predicate MakesWay(before: Card, replacing: bool, luck: Luck) {
    && luck.opens && luck.written.None? && luck.flushed
    && !(luck.rename1 && replacing) && luck.stepAside && (replacing || luck.removeBak || before.bak.None?)
  }

  /** What fav_load makes of any state a save leaves behind: the old list or the new one, or nothing; and
      nothing, with two lists that are not empty, exactly where there is no file under the name itself, with
      the old list whole under ".bak" and the new one under ".tmp". */
  lemma LoadedAfter(c: Card, before: Card, was: seq<Station>, favourites: seq<Station>)
    requires InPlace(c, before, Saved(favourites)) && before.main == Some(Saved(was))
    requires (forall i | 0 <= i < |was| :: StationOk(was[i])) && forall i | 0 <= i < |favourites| :: StationOk(favourites[i])
    ensures Loads(c.main) ==
      if c.main.None? then [] else if c.main == before.main then AllSanitized(was) else AllSanitized(favourites)
    ensures was != [] && favourites != [] ==> (Loads(c.main) == [] <==> c.main.None?)
    ensures c.main.None? ==> Loads(c.bak) == AllSanitized(was) && Loads(c.tmp) == AllSanitized(favourites)
  {
    hide Saved, Loaded, AllSanitized, StationOk;
    SavedLoads(was, 0);
    SavedLoads(favourites, 0);
  }

  class CardDevice {
    var card: Card
    const replacing: bool

    // Every state of the card, the power being able to go at each.
    ghost var states: seq<Card>

    constructor (c: Card, semantics: bool)
      ensures card == c && replacing == semantics && states == [c]
    {
      card, replacing := c, semantics;
      states := [c];
    }

    // Everything since the n-th state is safe.
    ghost predicate SafeSince(n: nat, old0: string, new0: string)
      reads this
    {
      forall k | n <= k < |states| :: Kept(states[k], old0, new0)
    }

    // In some state since the n-th there is no file under the name itself.
    ghost predicate GoneSince(n: nat)
      reads this
    {
      exists k :: n <= k < |states| && states[k].main.None?
    }

    method Store(c: Card)
      modifies this
      ensures card == c && states == old(states) + [c]
    {
      card := c;
      states := states + [c];
    }

    method Remove(n: Name, lucky: bool)
      modifies this
      ensures card == if lucky then With(old(card), n, None) else old(card)
      ensures states == old(states) + [card]
    {
      Store(if lucky then With(card, n, None) else card);
    }

    method Rename(from: Name, to: Name, lucky: bool) returns (ok: bool)
      modifies this
      ensures (card, ok) == Renamed(old(card), replacing, from, to, lucky)
      ensures states == old(states) + [card]
    {
      var (c, done) := Renamed(card, replacing, from, to, lucky);
      Store(c);
      ok := done;
    }

    // fopen for writing, and the bytes as they go out one after another.
    method WriteTmp(content: string, count: nat)
      requires count <= |content|
      modifies this
      ensures card == old(card).(tmp := Some(content[..count]))
      ensures old(states) < states && states[|old(states)|] == old(card).(tmp := Some(""))
      ensures forall k | |old(states)| <= k < |states| ::
        states[k].main == old(card).main && states[k].bak == old(card).bak
    {
      Store(card.(tmp := Some("")));
      assert content[..0] == "";
      for i := 0 to count
        invariant card == old(card).(tmp := Some(content[..i]))
        invariant old(states) < states && states[|old(states)|] == old(card).(tmp := Some(""))
        invariant forall k | |old(states)| <= k < |states| ::
          states[k].main == old(card).main && states[k].bak == old(card).bak
      {
        Store(card.(tmp := Some(content[..i + 1])));
      }
    }

    // Every state since the n-th holds the new list, and is one of a save that began at before.
    ghost predicate InPlaceSince(n: nat, before: Card, content: string)
      reads this
    {
      forall k | n <= k < |states| ::
        InPlace(states[k], before, content) && (states[k].main == Some(content) || states[k].tmp == Some(content))
    }

    // The file steps aside for its replacement.
    method StepAside(ghost content: string, luck: Luck) returns (ok: bool, moved: bool)
      requires card.tmp == Some(content)
      modifies this
      ensures old(states) <= states && InPlaceSince(|old(states)|, old(card), content)
      ensures moved <==> old(card).main.Some? && luck.stepAside && (replacing || luck.removeBak || old(card).bak.None?)
      ensures |states| == |old(states)| + 3 && (moved ==> states[|old(states)| + 1].main.None?)
      ensures old(card).main.Some? && !moved ==> !GoneSince(|old(states)|)
      ensures card.bak == if moved then old(card).main else if luck.removeBak then None else old(card).bak
      ensures ok <==> luck.rename2 && (replacing || moved || old(card).main.None?)
      ensures if ok then card.main == Some(content) && card.tmp == None
              else card.tmp == Some(content) && card.main == if moved then None else old(card).main
    {
      Remove(Bak, luck.removeBak);
      moved := Rename(Main, Bak, luck.stepAside);
      ok := Rename(Tmp, Main, luck.rename2);
    }

    // The end of fav_save: the new file takes the old one's place, which steps aside where rename refuses
    // an existing target. The new list is under one name or the other all the time.
    method PutInPlace(ghost content: string, luck: Luck) returns (rc: int)
      requires card.tmp == Some(content)
      modifies this
      ensures old(states) <= states
      ensures card.main == Some(content) || card.tmp == Some(content)
      ensures InPlaceSince(|old(states)|, old(card), content)
      ensures old(card).main.Some? ==>
        (GoneSince(|old(states)|) <==>
         !(luck.rename1 && replacing) && luck.stepAside && (replacing || luck.removeBak || old(card).bak.None?))
      ensures rc == 0 || rc == -1
      ensures rc == 0 ==> card.main == Some(content) && card.tmp == None
      ensures rc == -1 && luck.putBack ==> card.main == old(card.main)
      ensures AllWork(luck) ==>
        rc == 0 && card.bak == if replacing || old(card.main).None? then old(card.bak) else None
    {
      var ok := Rename(Tmp, Main, luck.rename1);
      if !ok {
        ghost var n := |states|;
        var moved;
        ok, moved := StepAside(content, luck);
        if !ok {
          if moved {
            var _ := Rename(Bak, Main, luck.putBack);
            assert states[n + 1].main.None?;
          }
          return -1;
        }
        if moved {
          Remove(Bak, luck.dropBak);
          assert states[n + 1].main.None?;
        }
      }
      rc := 0;
    }

    /** fav_save. If the file itself or its ".bak" holds a complete list before, then in every state in
        between, and whichever step fails, one of the three files holds that list or the new one complete.
        A save that reports success has the new list in place, and it does succeed where rename refuses an
        existing target; one that fails leaves the file as it was, unless putting it back fails too. Its
        first step empties ".tmp", so the save is safe throughout if and only if the file itself or its ".bak" was
        complete: where only ".tmp" was, the power going right after that step leaves neither list. Under the
        name itself there is the old file or the new one in every state but those in which it has stepped
        aside, and such a state comes if and only if it makes way: where rename refuses an existing target,
        in every save in which nothing else fails. */
    method Save(favourites: seq<Station>, luck: Luck, ghost was: string) returns (rc: int)
      requires luck.written.Some? ==> luck.written.value <= |Saved(favourites)|
      modifies this
      ensures old(states) <= states
      ensures Complete(old(card).main, was, Saved(favourites)) || Complete(old(card).bak, was, Saved(favourites)) ==>
        SafeSince(|old(states)|, was, Saved(favourites)) && Kept(card, was, Saved(favourites))
      ensures luck.opens ==>
        |states| > |old(states)| && states[|old(states)|] == old(card).(tmp := Some(""))
      ensures luck.opens && was != "" && Saved(favourites) != "" ==>
        (SafeSince(|old(states)|, was, Saved(favourites)) <==>
         Complete(old(card).main, was, Saved(favourites)) || Complete(old(card).bak, was, Saved(favourites)))
      ensures forall k | |old(states)| <= k < |states| :: InPlace(states[k], old(card), Saved(favourites))
      ensures old(card).main.Some? ==> (GoneSince(|old(states)|) <==> MakesWay(old(card), replacing, luck))
      ensures old(card).main.Some? && AllWork(luck) ==> (GoneSince(|old(states)|) <==> !replacing)
      ensures rc == 0 || rc == -1
      ensures rc == 0 ==> card.main == Some(Saved(favourites)) && card.tmp == None
      ensures rc == -1 && luck.putBack ==> card.main == old(card.main)
      ensures AllWork(luck) ==>
        rc == 0 && card.bak == if replacing || old(card.main).None? then old(card.bak) else None
    {
      hide Saved;
      if !luck.opens { return -1; }
      var content := WriteRows(favourites);
      if was != "" && content != "" { OpeningIsSafeIff(card, was, content); }
      WriteTmp(content, if luck.written.Some? then luck.written.value else |content|);
      if luck.written.Some? || !luck.flushed {
        Remove(Tmp, luck.removeTmp);
        return -1;
      }
      assert content[..|content|] == content;
      ghost var n := |states|;
      rc := PutInPlace(content, luck);
      assert forall k | n <= k < |states| :: states[k].main == Some(content) || states[k].tmp == Some(content);
    }
  }
}
