/** The main screen of the raffle creator: the in-memory raffle list, the
    store it is persisted to, the back-press exit counter, and the callbacks
    that change them. */
module MainScreen {
  import opened Domain
  import opened Storage
  import opened Events
  import opened ExitCounter

  /** The raffle list that a screen starting on `store` hydrates. */
  function Hydrated(store: Store, codec: Codec): seq<Raffle>
  {
    Load(store, RaffleNameKey, codec.decodeRaffles)
  }

  /** The participants that the removal callback reads from `store`. */
  function StoredParticipants(store: Store, codec: Codec): seq<Participant>
  {
    Load(store, ParticipantKey, codec.decodeParticipants)
  }

  /** What the removal callback writes, in order: the participant list only
      when a participant was dropped, then always the raffle list. */
  function RemovalWrites(store: Store, codec: Codec, raffles: seq<Raffle>, position: nat): seq<Event>
    requires position < |raffles|
  {
    var f := RemoveAll(StoredParticipants(store, codec), raffles[position].id);
    (if f.removed then [Saved(ParticipantKey, codec.encodeParticipants(f.kept))] else [])
    + [Saved(RaffleNameKey, codec.encodeRaffles(RemoveAt(raffles, position)))]
  }

  /** The store after the writes `w`, applied in order. */
  function ApplyWrites(store: Store, w: seq<Event>): Store
    decreases |w|
  {
    if w == [] then store
    else
      var s := if w[0].Saved? then store[w[0].key := w[0].value] else store;
      ApplyWrites(s, w[1..])
  }

  /** The store after the removal callback: the participant entry rewritten
      when a participant was dropped, the raffle entry always rewritten. */
  function StoreAfterRemoval(store: Store, codec: Codec, raffles: seq<Raffle>, position: nat): Store
    requires position < |raffles|
  {
    var f := RemoveAll(StoredParticipants(store, codec), raffles[position].id);
    var s := if f.removed then store[ParticipantKey := codec.encodeParticipants(f.kept)] else store;
    s[RaffleNameKey := codec.encodeRaffles(RemoveAt(raffles, position))]
  }

  /** The removal callback makes one write, of the shortened raffle list, when
      no stored participant belonged to the removed raffle, and otherwise two:
      first the participant list without that raffle's participants, then the
      shortened raffle list. It writes no other key. */
  lemma RemovalWritesSpec(store: Store, codec: Codec, raffles: seq<Raffle>, position: nat)
    requires position < |raffles|
    ensures var ps := StoredParticipants(store, codec);
            var matched := exists i :: 0 <= i < |ps| && ps[i].raffleId == raffles[position].id;
            var w := RemovalWrites(store, codec, raffles, position);
            && |w| == (if matched then 2 else 1)
            && (matched ==> w[0] == Saved(ParticipantKey,
                                          codec.encodeParticipants(RemoveAll(ps, raffles[position].id).kept)))
            && w[|w| - 1] == Saved(RaffleNameKey, codec.encodeRaffles(RemoveAt(raffles, position)))
            && forall e :: e in w ==> e.Saved? && (e.key == RaffleNameKey || e.key == ParticipantKey)
  {
  }

  /** The store after removal is the old store with the removal's writes
      applied in the order they were made. */
  lemma StoreAfterRemovalAppliesWrites(store: Store, codec: Codec, raffles: seq<Raffle>, position: nat)
    requires position < |raffles|
    ensures StoreAfterRemoval(store, codec, raffles, position) ==
            ApplyWrites(store, RemovalWrites(store, codec, raffles, position))
  {
    var f := RemoveAll(StoredParticipants(store, codec), raffles[position].id);
    var w := RemovalWrites(store, codec, raffles, position);
    var last := Saved(RaffleNameKey, codec.encodeRaffles(RemoveAt(raffles, position)));
    assert [last][1..] == [];
    if f.removed {
      var mid := store[ParticipantKey := codec.encodeParticipants(f.kept)];
      assert w == [w[0], last];
      assert w[1..] == [last];
      assert ApplyWrites(store, w) == ApplyWrites(mid, [last]);
      assert ApplyWrites(mid, [last]) == mid[RaffleNameKey := last.value];
    } else {
      assert w == [last];
      assert ApplyWrites(store, w) == store[RaffleNameKey := last.value];
    }
  }

  /** A screen started afterwards sees, under a codec that round-trips, exactly
      the list that the removal left in memory, and reads back exactly the
      participants of the other raffles. */
  lemma RemovalPersists(store: Store, codec: Codec, raffles: seq<Raffle>, position: nat)
    requires position < |raffles|
    requires RaffleCodecRoundTrips(codec)
    requires ParticipantCodecRoundTrips(codec)
    ensures var after := StoreAfterRemoval(store, codec, raffles, position);
            && Hydrated(after, codec) == RemoveAt(raffles, position)
            && StoredParticipants(after, codec) ==
               RemoveAll(StoredParticipants(store, codec), raffles[position].id).kept
            && forall k :: k != RaffleNameKey && k != ParticipantKey ==>
                 (k in after <==> k in store) && (k in store ==> after[k] == store[k])
  {
    var f := RemoveAll(StoredParticipants(store, codec), raffles[position].id);
    var mid := if f.removed then store[ParticipantKey := codec.encodeParticipants(f.kept)] else store;
    var raffleData := codec.encodeRaffles(RemoveAt(raffles, position));
    LoadAfterWrite(mid, RaffleNameKey, raffleData, RaffleNameKey, codec.decodeRaffles);
    LoadAfterWrite(mid, RaffleNameKey, raffleData, ParticipantKey, codec.decodeParticipants);
    if f.removed {
      LoadAfterWrite(store, ParticipantKey, codec.encodeParticipants(f.kept), ParticipantKey, codec.decodeParticipants);
    }
  }

  /** Under a raffle codec that round-trips, a screen started after the raffle
      list `rs` was saved hydrates exactly `rs`, whatever else the store holds. */
  lemma SavedListReloads(store: Store, codec: Codec, rs: seq<Raffle>)
    requires RaffleCodecRoundTrips(codec)
    ensures Hydrated(store[RaffleNameKey := codec.encodeRaffles(rs)], codec) == rs
  {
    LoadAfterWrite(store, RaffleNameKey, codec.encodeRaffles(rs), RaffleNameKey, codec.decodeRaffles);
  }

  class MainActivity {
    /** The in-memory raffle list, shown by the list view. */
    var raffles: seq<Raffle>
    /** The repository's key-value entries. */
    var store: Store
    var exitCounter: int32
    /** The string codecs of the two lists. */
    const codec: Codec
    /** Every external effect so far, in order. */
    ghost var log: seq<Event>

    /** `onCreate`: the counter is reset, the raffle list starts empty and is
        hydrated from the store. */
    constructor (codec: Codec, store: Store)
      ensures this.codec == codec && this.store == store
      ensures raffles == Hydrated(store, codec)
      ensures exitCounter == Reset
      ensures log == []
    {
      this.codec := codec;
      this.store := store;
      raffles := [];
      exitCounter := 0;
      log := [];
      new;
      ResetExitCounter();
      PopulateRaffleList();
    }

    /** `raffleRepository.saveString(key, value)`. */
    method Save(key: Key, value: string)
      modifies this
      ensures store == old(store)[key := value]
      ensures log == old(log) + [Saved(key, value)]
      ensures raffles == old(raffles) && exitCounter == old(exitCounter)
    {
      store := store[key := value];
      log := log + [Saved(key, value)];
    }

    /** `populateRaffleList`: the stored raffle list is appended to the
        in-memory one (`addAll`); a missing key appends nothing. */
    method PopulateRaffleList()
      modifies this
      ensures raffles == old(raffles) + Hydrated(store, codec)
      ensures store == old(store) && exitCounter == old(exitCounter) && log == old(log)
    {
      var loaded := Load(store, RaffleNameKey, codec.decodeRaffles);
      raffles := raffles + loaded;
    }

    /** Another screen sharing the repository (the participant screen opened
        by `OpenParticipantActivity`) wrote to it while this screen was in the
        background: the store is now `s`, and nothing of this screen changes. */
    method StoreWrittenElsewhere(s: Store)
      modifies this
      ensures store == s
      ensures raffles == old(raffles) && exitCounter == old(exitCounter) && log == old(log)
    {
      store := s;
    }

    /** `resetExitCounter`. */
    method ResetExitCounter()
      modifies this
      ensures exitCounter == Reset
      ensures raffles == old(raffles) && store == old(store) && log == old(log)
    {
      exitCounter := 2;
    }

    /** `onBackPressed`: the counter goes down by one, with a warning when it
        reaches 1 and a finish request when it reaches 0. */
    method OnBackPressed()
      modifies this
      ensures exitCounter == Decrement(old(exitCounter))
      ensures log == old(log) + BackPressEvents(exitCounter)
      ensures raffles == old(raffles) && store == old(store)
    {
      exitCounter := Decrement(exitCounter);
      if exitCounter == 1 {
        log := log + [ExitWarning];
      } else if exitCounter == 0 {
        log := log + [FinishRequested];
      }
    }

    /** `addRaffle`, the "+" button: the counter is reset and the name dialog
        is shown (the dialog itself has no state of its own here). */
    method AddRaffle()
      modifies this
      ensures exitCounter == Reset
      ensures raffles == old(raffles) && store == old(store) && log == old(log)
    {
      ResetExitCounter();
    }

    /** `openParticipantActivity`: the participant screen is started with the
        raffle's name and identifier. */
    method OpenParticipantActivity(raffle: Raffle)
      modifies this
      ensures log == old(log) + [OpenedParticipants(raffle.name, raffle.id)]
      ensures raffles == old(raffles) && store == old(store) && exitCounter == old(exitCounter)
    {
      log := log + [OpenedParticipants(raffle.name, raffle.id)];
    }

    /** The tap callback of the list: the tapped raffle's participants are opened. */
    method OnRaffleTapped(position: nat)
      requires position < |raffles|
      modifies this
      ensures raffles == old(raffles) && store == old(store) && exitCounter == old(exitCounter)
      ensures log == old(log) + [OpenedParticipants(raffles[position].name, raffles[position].id)]
    {
      var raffle := raffles[position];
      OpenParticipantActivity(raffle);
    }

    /** The "Add" button of the name dialog, confirmed with `raffleName`;
        `freshId` is the identifier the new raffle is created with. An empty
        name changes nothing. Otherwise the raffle is appended, the whole list
        is saved, and the new raffle's participants are opened. */
    method ConfirmAdd(raffleName: string, freshId: RaffleId)
      modifies this
      ensures raffleName == [] ==>
                raffles == old(raffles) && store == old(store) && log == old(log)
      ensures raffleName != [] ==>
                && |raffles| == |old(raffles)| + 1
                && raffles[..|old(raffles)|] == old(raffles)
                && raffles[|old(raffles)|] == Raffle(freshId, raffleName)
                && store == old(store)[RaffleNameKey := codec.encodeRaffles(raffles)]
                && log == old(log) + [Saved(RaffleNameKey, codec.encodeRaffles(raffles)),
                                      OpenedParticipants(raffleName, freshId)]
      ensures exitCounter == old(exitCounter)
    {
      if raffleName != [] {
        var raffle := Raffle(freshId, raffleName);
        raffles := raffles + [raffle];
        Save(RaffleNameKey, codec.encodeRaffles(raffles));
        OpenParticipantActivity(raffle);
      }
    }

    /** The "Yes" button of the removal dialog for the raffle at `position`:
        the stored participants of that raffle are dropped (the participant
        list is saved only when one was), the raffle is removed from the list,
        and the shortened list is saved. */
    method ConfirmRemove(position: nat)
      requires position < |raffles|
      modifies this
      ensures raffles == RemoveAt(old(raffles), position)
      ensures log == old(log) + RemovalWrites(old(store), codec, old(raffles), position)
      ensures store == StoreAfterRemoval(old(store), codec, old(raffles), position)
      ensures exitCounter == old(exitCounter)
    {
      var participants := Load(store, ParticipantKey, codec.decodeParticipants);
      var raffle := raffles[position];
      var filtered := RemoveAll(participants, raffle.id);
      raffles := RemoveAt(raffles, position);
      if filtered.removed {
        Save(ParticipantKey, codec.encodeParticipants(filtered.kept));
      }
      Save(RaffleNameKey, codec.encodeRaffles(raffles));
    }

    /** `onPause`: the current raffle list is saved; nothing else changes. */
    method OnPause()
      modifies this
      ensures store == old(store)[RaffleNameKey := codec.encodeRaffles(raffles)]
      ensures log == old(log) + [Saved(RaffleNameKey, codec.encodeRaffles(raffles))]
      ensures raffles == old(raffles) && exitCounter == old(exitCounter)
    {
      Save(RaffleNameKey, codec.encodeRaffles(raffles));
    }
  }

  /** `n` back presses in a row on screen `a`: the counter and the effects are
      those of `Presses` from the counter the screen started with. */
  method PressBack(a: MainActivity, n: nat)
    modifies a
    ensures a.exitCounter == Presses(old(a.exitCounter), n).0
    ensures a.log == old(a.log) + Presses(old(a.exitCounter), n).1
    ensures a.raffles == old(a.raffles) && a.store == old(a.store)
  {
    var i := 0;
    while i < n
      invariant 0 <= i <= n
      invariant a.exitCounter == Presses(old(a.exitCounter), i).0
      invariant a.log == old(a.log) + Presses(old(a.exitCounter), i).1
      invariant a.raffles == old(a.raffles) && a.store == old(a.store)
    {
      PressesSnoc(old(a.exitCounter), i);
      a.OnBackPressed();
      i := i + 1;
    }
  }
}
