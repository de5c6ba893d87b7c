/** The view-state holder of the player screen.

    `PlayerViewModel` keeps one `PlayerViewModelState` record and replaces it on every
    event: a picked track, finished sample extraction, going back to pick another
    track, a seek, play/pause, a polling tick of the position timer, and the media
    player's completion and prepared notifications. Each event is one atomic method.
    The media player is `Player`, reduced to the state the view model reads. */
module ViewModel {
  import opened Kotlin

  /** A content URI returned by the file picker; its contents are not modelled. */
  datatype Uri = Uri(path: string)

  /** `PlayerViewModelState`: the state the screen renders. */
  datatype PlayerViewModelState = PlayerViewModelState(
    samples: Option<seq<Int32>>,
    contentUri: Option<Uri>,
    isPlaying: bool,
    playerCurrentPosition: Int32,
    duration: Int32)

  /** `Player`, the wrapper around the platform media player: whether it plays, its
      position and duration in milliseconds, and the loaded track. */
  class Player {
    var playing: bool
    var currentPosition: Int32
    var duration: Int32
    var source: Option<Uri>

    constructor ()
      ensures !playing && currentPosition == 0 && duration == 0 && source == None
    {
      playing := false;
      currentPosition := 0;
      duration := 0;
      source := None;
    }

    /** `playPause`: a playing player is paused and the result is false; otherwise it
        is started and the result is true. The result is the new play state. */
    method PlayPause() returns (isPlaying: bool)
      modifies this`playing
      ensures isPlaying == !old(playing)
      ensures playing == isPlaying
    {
      if playing {
        playing := false;
        isPlaying := false;
      } else {
        playing := true;
        isPlaying := true;
      }
    }

    /** `seekTo`: moves the playback position. */
    method SeekTo(ms: Int32)
      modifies this`currentPosition
      ensures currentPosition == ms
    {
      currentPosition := ms;
    }

    /** `reset`: pause, seek to 0, and return the player to its idle state with no track. */
    method Reset()
      modifies this`playing, this`currentPosition, this`source
      ensures !playing && currentPosition == 0 && source == None
    {
      playing := false;
      currentPosition := 0;
      source := None;
    }

    /** `loadUri`: sets the data source and prepares it; `fileDuration` is the length of
        the track, which the platform decodes. */
    method LoadUri(contentUri: Uri, fileDuration: Int32)
      modifies this`source, this`duration
      ensures source == Some(contentUri) && duration == fileDuration
    {
      source := Some(contentUri);
      duration := fileDuration;
    }

    /** The platform player reaching the end of the track and stopping; it then calls
        the completion listener. */
    method Complete()
      modifies this`playing
      ensures !playing
    {
      playing := false;
    }
  }

  /** `PlayerViewModel`. `timerActive` says whether the polling job held in `timerJob`
      is running; `extracting` holds the tracks whose sample extraction was launched
      and has not delivered its result yet. */
  class PlayerViewModel {
    const player: Player
    var state: PlayerViewModelState
    var timerActive: bool
    ghost var extracting: multiset<Uri>

    /** The screen shows the player's play state, and the position timer runs exactly
        while the player plays. */
    ghost predicate Synced()
      reads this, player
    {
      state.isPlaying == player.playing && timerActive == player.playing
    }

    /** The state starts at the record's defaults: no samples, no track, not playing,
        position 0, duration 0. */
    constructor (player: Player)
      ensures this.player == player
      ensures state.samples == None && state.contentUri == None && !state.isPlaying
      ensures state.playerCurrentPosition == 0 && state.duration == 0
      ensures !timerActive && extracting == multiset{}
      ensures Synced() <==> !player.playing
    {
      this.player := player;
      state := PlayerViewModelState(None, None, false, 0, 0);
      timerActive := false;
      extracting := multiset{};
    }

    /** `onTrackPicked`: a null result is ignored; otherwise only `contentUri` changes,
        and the extraction of the track's samples is launched. */
    method OnTrackPicked(result: Option<Uri>)
      modifies this`state, this`extracting
      ensures result.None? ==> state == old(state) && extracting == old(extracting)
      ensures result.Some? ==> state == old(state).(contentUri := result)
      ensures result.Some? ==> extracting == old(extracting) + multiset{result.value}
      ensures old(Synced()) ==> Synced()
    {
      if result.None? {
        return;
      }
      state := state.(contentUri := result);
      extracting := extracting + multiset{result.value};
    }

    /** The end of the extraction launched by `onTrackPicked(uri)`: the samples are
        stored whatever track is selected now. */
    method OnSamplesExtracted(uri: Uri, samples: seq<Int32>)
      requires uri in extracting
      modifies this`state, this`extracting
      ensures state == old(state).(samples := Some(samples))
      ensures extracting == old(extracting) - multiset{uri}
      ensures old(Synced()) ==> Synced()
    {
      state := state.(samples := Some(samples));
      extracting := extracting - multiset{uri};
    }

    /** `pickAnotherTrack`: resets the player, cancels the timer and clears everything
        but the duration. Extractions in flight are not cancelled. */
    method PickAnotherTrack()
      modifies this`state, this`timerActive, player`playing, player`currentPosition, player`source
      ensures !player.playing && player.currentPosition == 0 && player.source == None
      ensures player.duration == old(player.duration)
      ensures !timerActive
      ensures state == old(state).(samples := None, contentUri := None, isPlaying := false, playerCurrentPosition := 0)
      ensures Synced()
    {
      player.Reset();
      timerActive := false;
      state := state.(samples := None, contentUri := None, isPlaying := false, playerCurrentPosition := 0);
    }

    /** `seekTo`: forwards the position to the player and shows it. */
    method SeekTo(ms: Int32)
      modifies this`state, player`currentPosition
      ensures player.currentPosition == ms
      ensures state == old(state).(playerCurrentPosition := ms)
      ensures old(Synced()) ==> Synced()
    {
      player.SeekTo(ms);
      state := state.(playerCurrentPosition := ms);
    }

    /** `playPause`: toggles the player and shows the result. When the player starts,
        the polling job is launched; it runs its first update at once (the view
        model's scope dispatches immediately), so the position shown is the player's.
        When the player pauses, the job is cancelled. */
    method PlayPause()
      modifies this`state, this`timerActive, player`playing
      ensures player.playing == !old(player.playing)
      ensures timerActive == player.playing
      ensures player.playing ==> state == old(state).(isPlaying := true, playerCurrentPosition := player.currentPosition)
      ensures !player.playing ==> state == old(state).(isPlaying := false)
      ensures Synced()
      ensures old(Synced()) && player.playing ==> !old(timerActive)
    {
      var isPlaying := player.PlayPause();
      if isPlaying {
        timerActive := true;
        Tick();
      } else {
        timerActive := false;
      }
      state := state.(isPlaying := isPlaying);
    }

    /** One pass of the polling loop: while the timer runs, the position shown is
        overwritten by the player's; after cancellation nothing happens. */
    method Tick()
      modifies this`state
      ensures timerActive ==> state == old(state).(playerCurrentPosition := player.currentPosition)
      ensures !timerActive ==> state == old(state)
      ensures old(Synced()) ==> Synced()
    {
      if timerActive {
        state := state.(playerCurrentPosition := player.currentPosition);
      }
    }

    /** The completion listener, together with the player stopping that triggers it:
        the screen shows "not playing" and the timer is cancelled. */
    method OnCompletion()
      modifies this`state, this`timerActive, player`playing
      ensures !player.playing && !timerActive
      ensures state == old(state).(isPlaying := false)
      ensures Synced()
    {
      player.Complete();
      state := state.(isPlaying := false);
      timerActive := false;
    }

    /** The prepared listener: only the duration changes, to the player's. */
    method OnPrepared()
      modifies this`state
      ensures state == old(state).(duration := player.duration)
      ensures old(Synced()) ==> Synced()
    {
      state := state.(duration := player.duration);
    }

    /** `loadUri`: hands the track to the player; the state is untouched until the
        prepared listener runs. */
    method LoadUri(contentUri: Uri, fileDuration: Int32)
      modifies player`source, player`duration
      ensures player.source == Some(contentUri) && player.duration == fileDuration
      ensures old(Synced()) ==> Synced()
    {
      player.LoadUri(contentUri, fileDuration);
    }
  }

  /** A late extraction: a track is picked, the user goes back before its samples
      arrive, and the result still lands, leaving samples with no track selected. */
  method StaleExtraction(uri: Uri, samples: seq<Int32>) returns (s: PlayerViewModelState)
    ensures s.samples == Some(samples)
    ensures s.contentUri == None
    ensures !s.isPlaying && s.playerCurrentPosition == 0
  {
    var player := new Player();
    var viewModel := new PlayerViewModel(player);
    viewModel.OnTrackPicked(Some(uri));
    viewModel.PickAnotherTrack();
    viewModel.OnSamplesExtracted(uri, samples);
    s := viewModel.state;
  }

  /** Pick, load and prepare a track, play it and let it complete: the duration is the
      track's, the shown position is where playback was polled last, and playback and
      the timer are stopped. */
  method PlayToCompletion(uri: Uri, fileDuration: Int32, elapsed: Int32)
    returns (s: PlayerViewModelState, timerRunning: bool)
    ensures s.contentUri == Some(uri) && s.duration == fileDuration
    ensures s.playerCurrentPosition == elapsed
    ensures !s.isPlaying && !timerRunning
  {
    var player := new Player();
    var viewModel := new PlayerViewModel(player);
    viewModel.OnTrackPicked(Some(uri));
    viewModel.LoadUri(uri, fileDuration);
    viewModel.OnPrepared();
    viewModel.PlayPause();
    // the platform player advances on its own clock
    player.currentPosition := elapsed;
    viewModel.Tick();
    viewModel.OnCompletion();
    s, timerRunning := viewModel.state, viewModel.timerActive;
  }
}
