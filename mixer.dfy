/** The audio mixer of audio/mixer.js: channels built from staged tracks, the
    persisted mixer state with its channel dictionary, and the `Mixer` whose
    operations read that state, change it and write it back, and whose
    player dictionary is reconciled against the channels. */
module AudioMixer {
  import opened Wrappers

  /** A track of the library: what a channel copies its name and source from. */
  datatype Track = Track(name: string, src: string)

  /** A track placed on the stage, with its own volume, loop flag and
      autoplay flag. */
  datatype StagedTrack = StagedTrack(volume: real, loop: bool, autoplay: bool)

  /** Everything needed to play one channel. */
  datatype Channel = Channel(name: string, src: string, volume: real, loop: bool, paused: bool)

  /** `new Channel(track, stagedTrack)`. */
  function NewChannel(track: Track, staged: StagedTrack): (c: Channel)
    ensures c.name == track.name && c.src == track.src
    ensures c.volume == staged.volume && c.loop == staged.loop
    ensures c.paused <==> !staged.autoplay
  {
    Channel(track.name, track.src, staged.volume, staged.loop, !staged.autoplay)
  }

  /** The state of the mixer: master volume, master pause flag and the
      channels by id. */
  datatype MixerState = MixerState(volume: real, paused: bool, channels: map<string, Channel>)

  /** `new MixerState`. */
  function DefaultState(): (s: MixerState)
    ensures s.volume == 0.5 && !s.paused && s.channels == map[]
  {
    MixerState(0.5, false, map[])
  }

  /** The parsed JSON object kept under the mixer's storage key; a key the
      object does not have is `None`. The empty object is what an absent
      entry reads as. */
  datatype StoredState = StoredState(volume: Option<real>, paused: Option<bool>, channels: Option<map<string, Channel>>)

  const EmptyStored := StoredState(None, None, None)

  /** `JSON.stringify` of a state followed by `JSON.parse`: every key present. */
  function Store(s: MixerState): (o: StoredState)
    ensures o.volume == Some(s.volume) && o.paused == Some(s.paused) && o.channels == Some(s.channels)
  {
    StoredState(Some(s.volume), Some(s.paused), Some(s.channels))
  }

  /** `Channel.assign` as written: it builds `new Channel()` with no track, and
      reading the missing track's name throws before any field is copied. */
  function AssignChannelAsWritten(obj: Channel): (r: Result<Channel, string>)
    ensures r.Err?
  {
    Err("TypeError: Cannot read properties of undefined (reading 'name')")
  }

  /** `Channel.assign` as intended: a blank channel with every field of the
      parsed object copied over it. */
  function AssignChannel(obj: Channel): (c: Channel)
    ensures c == obj
  {
    var blank := Channel("", "", 1.0, false, false);
    blank.(name := obj.name, src := obj.src, volume := obj.volume, loop := obj.loop, paused := obj.paused)
  }

  /** `MixerState.assign` as written: rehydrating the channels calls
      `Channel.assign` once per stored channel, so any stored channel makes it
      throw; otherwise the present keys override the defaults. */
  function AssignAsWritten(obj: StoredState): (r: Result<MixerState, string>)
    ensures r.Err? <==> obj.channels.GetOr(map[]) != map[]
    ensures r.Ok? ==> r.value == MixerState(obj.volume.GetOr(0.5), obj.paused.GetOr(false), map[])
  {
    var stored := obj.channels.GetOr(map[]);
    if stored != map[] then
      var id :| id in stored;
      var failed := AssignChannelAsWritten(stored[id]);
      Err(failed.error)
    else
      Ok(MixerState(obj.volume.GetOr(0.5), obj.paused.GetOr(false), map[]))
  }

  /** `MixerState.assign` as intended: each channel rehydrated, then the
      present keys override the defaults of a fresh state. */
  function Assign(obj: StoredState): (s: MixerState)
    ensures s.volume == obj.volume.GetOr(DefaultState().volume)
    ensures s.paused == obj.paused.GetOr(DefaultState().paused)
    ensures s.channels.Keys == obj.channels.GetOr(map[]).Keys
    ensures forall id | id in s.channels :: s.channels[id] == obj.channels.GetOr(map[])[id]
  {
    var stored := obj.channels.GetOr(map[]);
    var channels := map id | id in stored :: AssignChannel(stored[id]);
    var blankState := DefaultState().(channels := channels);
    blankState.(volume := obj.volume.GetOr(blankState.volume), paused := obj.paused.GetOr(blankState.paused))
  }

  /** Reading back what was written gives the state that was written. */
  lemma AssignStore(s: MixerState)
    ensures Assign(Store(s)) == s
  {
    assert Assign(Store(s)).channels == s.channels;
  }

  /** An empty storage entry reads as the default state. */
  lemma AssignEmpty()
    ensures Assign(EmptyStored) == DefaultState()
  {
    assert Assign(EmptyStored).channels == map[];
  }

  /** As written, a state holding any channel cannot be read back. */
  lemma StoredChannelsUnreadable(s: MixerState)
    requires s.channels != map[]
    ensures AssignAsWritten(Store(s)).Err?
  {
  }

  /** The playback-relevant state of one `HTMLAudioElement`. */
  datatype Player = Player(src: string, volume: real, loop: bool, paused: bool, preload: string)

  /** `new Audio()` with `preload = "auto"`: no source, full volume, paused. */
  function NewPlayer(): (p: Player)
    ensures p.paused && p.preload == "auto"
  {
    Player("", 1.0, false, true, "auto")
  }

  /** The player that `_syncPlayers` starts from for `id`: the existing one,
      or a new one. */
  function BasePlayer(players: map<string, Player>, id: string): (p: Player)
    ensures id in players ==> p == players[id]
    ensures id !in players ==> p == NewPlayer()
  {
    if id in players then players[id] else NewPlayer()
  }

  /** One player set to play channel `c` under state `s`. Its volume is the
      product of the master and channel volumes, and it plays exactly when
      neither the mixer nor the channel is paused. */
  function Tune(p: Player, s: MixerState, c: Channel): (q: Player)
    ensures q.src == c.src && q.loop == c.loop && q.volume == s.volume * c.volume
    ensures q.paused <==> s.paused || c.paused
    ensures q.preload == p.preload
  {
    p.(src := c.src, volume := s.volume * c.volume, loop := c.loop, paused := s.paused || c.paused)
  }

  /** The player dictionary after `_syncPlayers` from `players` under `s`:
      in line with the state whatever players there were before, and an
      existing player keeps its `preload`. */
  function SyncedPlayers(players: map<string, Player>, s: MixerState): (synced: map<string, Player>)
    ensures InSync(synced, s)
    ensures forall id | id in players && id in s.channels :: synced[id].preload == players[id].preload
  {
    map id | id in s.channels :: Tune(BasePlayer(players, id), s, s.channels[id])
  }

  /** The players match the channels: the same ids, and each player carries
      its channel's source, loop flag, volume and pause state. */
  predicate InSync(players: map<string, Player>, s: MixerState) {
    && players.Keys == s.channels.Keys
    && forall id | id in players ::
         var c := s.channels[id];
         && players[id].src == c.src && players[id].loop == c.loop
         && players[id].volume == s.volume * c.volume
         && (players[id].paused <==> s.paused || c.paused)
  }

  /** Players already in line with the state are left as they are, so
      `_syncPlayers` is idempotent. */
  lemma SyncInSyncIdle(players: map<string, Player>, s: MixerState)
    requires InSync(players, s)
    ensures SyncedPlayers(players, s) == players
  {
    forall id | id in players
      ensures SyncedPlayers(players, s)[id] == players[id]
    {
      var p := players[id];
      assert Tune(p, s, s.channels[id]) == p;
    }
    assert SyncedPlayers(players, s).Keys == players.Keys;
  }

  lemma SyncIdempotent(players: map<string, Player>, s: MixerState)
    ensures SyncedPlayers(SyncedPlayers(players, s), s) == SyncedPlayers(players, s)
  {
    SyncInSyncIdle(SyncedPlayers(players, s), s);
  }

  /** Pausing a state whose players are in line, while one of them is
      playing, leaves that player out of line until the next sync. */
  lemma PauseWithoutSyncIsStale(players: map<string, Player>, s: MixerState, id: string)
    requires InSync(players, s) && id in players && !players[id].paused
    ensures !InSync(players, s.(paused := true))
  {
  }

  /** The events a mixer dispatches. */
  datatype MixerEvent = ChannelListChange | PlayPause

  class Mixer {
    /** The storage entry under `localStorageKey`, already parsed. */
    var stored: StoredState
    /** `_players`: one audio element per channel id. */
    var players: map<string, Player>
    /** The events dispatched so far, oldest first. */
    var events: seq<MixerEvent>
    const localStorageKey: string

    /** `new Mixer(gameID)` over whatever is already persisted under its key. */
    constructor(gameId: string, persisted: StoredState)
      ensures localStorageKey == "audio.mixer." + gameId
      ensures stored == persisted && players == map[] && events == []
    {
      localStorageKey := "audio.mixer." + gameId;
      stored := persisted;
      players := map[];
      events := [];
    }

    /** `state()`, with the corrected `assign`: the stored volume and
        pause flag, 0.5 and unpaused where none is stored, and exactly the
        stored channels. */
    function State(): (s: MixerState)
      reads this
      ensures s.volume == stored.volume.GetOr(0.5) && s.paused == stored.paused.GetOr(false)
      ensures s.channels == stored.channels.GetOr(map[])
    {
      var s := Assign(stored);
      assert s.channels == stored.channels.GetOr(map[]);
      s
    }

    /** `_syncPlayers`: every channel gets a player, created when missing and
        then tuned to the channel; every player without a channel is paused
        and removed. */
    method SyncPlayers()
      modifies this`players
      ensures players == SyncedPlayers(old(players), State())
      ensures InSync(players, State())
    {
      var state := State();
      var todo := state.channels.Keys;
      while todo != {}
        invariant todo <= state.channels.Keys
        invariant forall id | id in state.channels && id !in todo ::
          id in players && players[id] == Tune(BasePlayer(old(players), id), state, state.channels[id])
        invariant forall id | id in old(players) && (id !in state.channels || id in todo) ::
          id in players && players[id] == old(players)[id]
        invariant forall id | id in players :: id in old(players) || (id in state.channels && id !in todo)
        decreases todo
      {
        var id :| id in todo;
        var player := if id in players then players[id] else NewPlayer();
        players := players[id := Tune(player, state, state.channels[id])];
        todo := todo - {id};
      }
      var stale := players.Keys - state.channels.Keys;
      while stale != {}
        invariant stale <= players.Keys
        invariant players.Keys == state.channels.Keys + stale
        invariant forall id | id in state.channels ::
          players[id] == Tune(BasePlayer(old(players), id), state, state.channels[id])
        decreases stale
      {
        var id :| id in stale;
        players := players - {id};
        stale := stale - {id};
      }
      assert players == SyncedPlayers(old(players), state);
    }

    /** `_write` as written: the state is persisted, but `this._syncPlayers`
        is only mentioned, never called, so the players stay as they were. */
    method WriteAsWritten(s: MixerState)
      modifies this`stored
      ensures State() == s
      ensures players == old(players)
    {
      stored := Store(s);
      AssignStore(s);
    }

    /** `_write` as intended: persist the state, then sync the players. */
    method Write(s: MixerState)
      modifies this`stored, this`players
      ensures State() == s
      ensures players == SyncedPlayers(old(players), s)
      ensures InSync(players, s)
    {
      stored := Store(s);
      AssignStore(s);
      SyncPlayers();
    }

    /** The `volume` getter. */
    function Volume(): (v: real)
      reads this
      ensures v == stored.volume.GetOr(0.5)
    {
      State().volume
    }

    /** The `volume` setter: only the master volume changes. */
    method SetVolume(v: real)
      modifies this`stored, this`players
      ensures State() == old(State()).(volume := v)
      ensures InSync(players, State())
    {
      var state := State();
      Write(state.(volume := v));
    }

    /** `play`: clears the master pause and announces a channel-list change. */
    method Play()
      modifies this
      ensures State() == old(State()).(paused := false)
      ensures InSync(players, State())
      ensures events == old(events) + [ChannelListChange]
    {
      var state := State();
      Write(state.(paused := false));
      events := events + [ChannelListChange];
    }

    /** `pause`: sets the master pause and announces a channel-list change. */
    method Pause()
      modifies this
      ensures State() == old(State()).(paused := true)
      ensures InSync(players, State())
      ensures forall id | id in players :: players[id].paused
      ensures events == old(events) + [ChannelListChange]
    {
      var state := State();
      Write(state.(paused := true));
      events := events + [ChannelListChange];
    }

    /** `channels()`. */
    function Channels(): (cs: map<string, Channel>)
      reads this
      ensures cs == stored.channels.GetOr(map[])
    {
      State().channels
    }

    /** `addChannel`, with the `uuid()` the source draws passed in as `id`:
        the channel appears under `id`, every other entry stays. */
    method AddChannel(id: string, channel: Channel)
      modifies this
      ensures State() == old(State()).(channels := old(State()).channels[id := channel])
      ensures id !in old(State()).channels ==> State().channels.Keys == old(State()).channels.Keys + {id}
      ensures InSync(players, State())
      ensures events == old(events) + [ChannelListChange]
    {
      var state := State();
      Write(state.(channels := state.channels[id := channel]));
      events := events + [ChannelListChange];
    }

    /** `readChannel`: the channel under `id`, `undefined` when there is none. */
    function ReadChannel(id: string): (r: Option<Channel>)
      reads this
      ensures r.Some? <==> id in State().channels
      ensures r.Some? ==> r.value == State().channels[id]
    {
      var channels := State().channels;
      if id in channels then Some(channels[id]) else None
    }

    /** `updateChannel`: throws, changing nothing, when `id` is absent;
        otherwise replaces that one entry. */
    method UpdateChannel(id: string, channel: Channel) returns (r: Result<(), string>)
      modifies this`stored, this`players
      ensures r.Err? <==> id !in old(State()).channels
      ensures r.Err? ==> r.error == "Channel " + id + " does not exist in mixer"
      ensures r.Err? ==> stored == old(stored) && players == old(players)
      ensures r.Ok? ==> State() == old(State()).(channels := old(State()).channels[id := channel])
      ensures r.Ok? ==> InSync(players, State())
    {
      var state := State();
      if id !in state.channels {
        return Err("Channel " + id + " does not exist in mixer");
      }
      Write(state.(channels := state.channels[id := channel]));
      r := Ok(());
    }

    /** `deleteChannel`: drops `id` if present, and succeeds either way. */
    method DeleteChannel(id: string)
      modifies this`stored, this`players
      ensures State() == old(State()).(channels := old(State()).channels - {id})
      ensures id !in old(State()).channels ==> State() == old(State())
      ensures InSync(players, State())
    {
      var state := State();
      Write(state.(channels := state.channels - {id}));
    }
  }
}
