/** The per-channel player of src/player.rs: a queue state machine over a
    current track, a playlist and a history. Every command changes the
    state in place, publishes a snapshot of it on the watch channel when the
    source does, and makes at most one call to the Lavalink audio node,
    whose outcome is a parameter. */
module Player {
  import opened Wrappers
  import opened PlayerQueue

  /** The metadata of a Lavalink track (lengths and positions in ms). */
  datatype TrackInfo = TrackInfo(title: string, uri: string, length: nat, position: nat)

  /** A Lavalink track: its encoded form and, when Lavalink sent it, its
      metadata. */
  datatype Track = Track(encoded: string, info: Option<TrackInfo>)

  datatype PlayState = Play | Pause

  /** The loop mode. */
  datatype Playback = Normal | AllLoop | OneLoop

  /** The Lavalink failures the player distinguishes: the websocket to the
      node was closed, or anything else. */
  datatype LavalinkError = WebsocketConnectionClosed | OtherLavalinkError(code: nat)

  datatype PlayerError =
    | Lavalink(cause: LavalinkError)
    | SongbirdJoin
    | SongbirdLeave
    | NotInAVoiceChannel
    | PlaylistFull(rejected: Track)
    | SearchFailed(loadType: string)
    | NoCurrentSong

  /** PlayState::is_paused. */
  predicate IsPaused(s: PlayState)
    ensures IsPaused(s) <==> s != Play
  {
    match s
    case Play => false
    case Pause => true
  }

  predicate IsLavalinkError(e: PlayerError) {
    e.Lavalink?
  }

  /** PlayerError::is_fatal: only a closed websocket to the node is fatal,
      so a fatal error is always a Lavalink error. */
  predicate IsFatal(e: PlayerError)
    ensures IsFatal(e) <==> e.Lavalink? && e.cause == WebsocketConnectionClosed
    ensures IsFatal(e) ==> e != NoCurrentSong && !e.PlaylistFull?
  {
    e == Lavalink(WebsocketConnectionClosed)
  }

  /** The current track: ((position when captured, capture instant), track).
      Instants are readings of a clock that the caller passes in. */
  datatype Current = Current(elapsed: nat, since: nat, track: Track)

  /** PlayerState, the value that is cloned and published. */
  datatype PlayerState = PlayerState(
    bot: nat,
    current: Option<Current>,
    playlist: seq<Track>,
    history: seq<Track>,
    playState: PlayState,
    playback: Playback)

  /** Both deques within their capacity. */
  predicate Bounded(s: PlayerState) {
    |s.playlist| <= Limit && |s.history| <= Limit
  }

  /** The calls the player makes on the Lavalink node. */
  datatype ProviderCall = ResumeCall | PauseCall | StopCall | PlayCall(track: Track) | JumpCall(position: nat)

  /** What the node answered to a call. */
  datatype ProviderReply = Done | Failed(error: LavalinkError)

  /** `.map_err(PlayerError::Lavalink)` on the node's answer. */
  function ReplyResult(reply: ProviderReply): (r: Result<(), PlayerError>)
    ensures r.Ok? <==> reply.Done?
    ensures r.Err? ==> IsLavalinkError(r.error)
    ensures reply.Failed? ==> r == Err(Lavalink(reply.error))
    ensures r.Err? ==> (IsFatal(r.error) <==> reply.error == WebsocketConnectionClosed)
  {
    match reply
    case Done => Ok(())
    case Failed(e) => Err(Lavalink(e))
  }

  /** `playback(m)`: a different mode is taken, the same mode again resets
      to Normal. */
  function ToggledMode(mode: Playback, m: Playback): (r: Playback)
    ensures r == m || r == Normal
    ensures r == Normal <==> mode == m || m == Normal
  {
    if mode != m then m else Normal
  }

  /** Choosing the same mode twice ends in Normal, unless the mode was
      already m before the first choice: then it comes back to m. */
  lemma ToggledTwice(mode: Playback, m: Playback)
    ensures ToggledMode(ToggledMode(mode, m), m) == if mode == m then m else Normal
  {
  }

  /** The playlist and history after `skip(i)` for i > 0: the current
      track, if any, goes to the playlist back in AllLoop and to the history
      front otherwise; then i - 1 rounds move playlist-front tracks the same
      way. */
  function SkipQueues(s: PlayerState, i: nat): (r: (seq<Track>, seq<Track>))
    requires Bounded(s) && i > 0
    ensures |r.0| <= Limit && |r.1| <= Limit
  {
    var p := if s.current.Some? && s.playback == AllLoop then PushBack(s.playlist, s.current.value.track) else s.playlist;
    var h := if s.current.Some? && s.playback != AllLoop then PushFront(s.history, s.current.value.track) else s.history;
    if s.playback == AllLoop then (RotateLoop(p, i - 1), h) else MoveFronts(p, h, i - 1)
  }

  /** The current track on its own, as a sequence of zero or one tracks. */
  function CurrentTracks(s: PlayerState): seq<Track> {
    if s.current.Some? then [s.current.value.track] else []
  }

  /** skip outside AllLoop: with k = min(i - 1, |playlist|), the first k
      playlist tracks, and before them the current track, end up reversed
      at the history front; the history keeps its first 100 tracks. */
  lemma SkipToHistory(s: PlayerState, i: nat)
    requires Bounded(s) && i > 0 && s.playback != AllLoop
    ensures var k := Min(i - 1, |s.playlist|);
            SkipQueues(s, i) == (s.playlist[k..], Cap(Reversed(s.playlist[..k]) + CurrentTracks(s) + s.history))
  {
    var h := if s.current.Some? then PushFront(s.history, s.current.value.track) else s.history;
    var c := CurrentTracks(s);
    assert h == Cap(c + s.history) by {
      if s.current.None? {
        assert c + s.history == s.history;
      }
    }
    MoveFrontsOnto(s.playlist, c, s.history, i - 1);
  }

  /** The playlist `skip` rotates in AllLoop: the old playlist with the
      current track, if any, pushed to its back (which evicts the last
      playlist track when the playlist is full). */
  function LoopPlaylist(s: PlayerState): (p: seq<Track>)
    requires Bounded(s)
    ensures |p| <= Limit
    ensures |s.playlist| < Limit ==> p == s.playlist + CurrentTracks(s)
    ensures s.current.Some? && |s.playlist| == Limit ==> p == s.playlist[..Limit - 1] + [s.current.value.track]
    ensures s.current.None? ==> p == s.playlist
  {
    if s.current.Some? then PushBack(s.playlist, s.current.value.track) else s.playlist
  }

  /** skip in AllLoop: the history is untouched and LoopPlaylist(s) is
      rotated left by (i - 1) modulo its length, so no track of it is lost;
      only the push of the current track into a full playlist drops one. */
  lemma SkipRotates(s: PlayerState, i: nat)
    requires Bounded(s) && i > 0 && s.playback == AllLoop
    ensures SkipQueues(s, i).1 == s.history
    ensures LoopPlaylist(s) == [] ==> SkipQueues(s, i).0 == []
    ensures LoopPlaylist(s) != [] ==>
              SkipQueues(s, i).0 == Rotated(LoopPlaylist(s), (i - 1) % |LoopPlaylist(s)|)
    ensures multiset(SkipQueues(s, i).0) == multiset(LoopPlaylist(s))
  {
    var p := LoopPlaylist(s);
    assert SkipQueues(s, i) == (RotateLoop(p, i - 1), s.history);
    if p != [] {
      RotateLoopMod(p, i - 1);
    }
    RotateLoopPermutes(p, i - 1);
  }

  /** The playlist and history after `back_skip(i)` for i > 0: the current
      track, if any, goes to the playlist front; then up to i history-front
      tracks follow it onto the playlist front. */
  function BackSkipQueues(s: PlayerState, i: nat): (r: (seq<Track>, seq<Track>))
    requires Bounded(s) && i > 0
    ensures |r.0| <= Limit && |r.1| <= Limit
  {
    var p := if s.current.Some? then PushFront(s.playlist, s.current.value.track) else s.playlist;
    var m := MoveFronts(s.history, p, i);
    (m.1, m.0)
  }

  /** back_skip: with k = min(i, |history|), the playlist starts with
      h[k-1], ..., h[0], then the old current track, then the old playlist,
      cut to 100 tracks; the history loses its first k tracks. */
  lemma BackSkipClosedForm(s: PlayerState, i: nat)
    requires Bounded(s) && i > 0
    ensures var k := Min(i, |s.history|);
            BackSkipQueues(s, i) == (Cap(Reversed(s.history[..k]) + CurrentTracks(s) + s.playlist), s.history[k..])
  {
    var p := if s.current.Some? then PushFront(s.playlist, s.current.value.track) else s.playlist;
    var c := CurrentTracks(s);
    assert p == Cap(c + s.playlist) by {
      if s.current.None? {
        assert c + s.playlist == s.playlist;
      }
    }
    MoveFrontsOnto(s.history, c, s.playlist, i);
  }

  /** The first half of `play_next`: Normal moves the current track to the
      history front, AllLoop to the playlist back, OneLoop rewinds it to
      position 0 at clock reading now. */
  function MoveCurrent(s: PlayerState, now: nat): (r: PlayerState)
    requires Bounded(s)
    ensures Bounded(r) && r.bot == s.bot && r.playback == s.playback && r.playState == s.playState
    ensures r.current.None? <==> s.current.None? || s.playback != OneLoop
    ensures s.current.None? ==> r == s
    ensures s.current.Some? && s.playback == Normal ==>
              r.history == PushFront(s.history, s.current.value.track) && r.playlist == s.playlist
    ensures s.current.Some? && s.playback == AllLoop ==>
              r.playlist == LoopPlaylist(s) && r.history == s.history
    ensures s.current.Some? && s.playback == OneLoop ==>
              r == s.(current := Some(s.current.value.(elapsed := 0, since := now)))
  {
    match s.current
    case None => s
    case Some(cur) =>
      match s.playback
      case Normal => s.(current := None, history := PushFront(s.history, cur.track))
      case AllLoop => s.(current := None, playlist := PushBack(s.playlist, cur.track))
      case OneLoop => s.(current := Some(cur.(elapsed := 0, since := now)))
  }

  /** The second half of `play_next`: with no current track, the playlist
      front becomes the current track, at position 0, playing. */
  function TakeNext(s: PlayerState, now: nat): (r: PlayerState)
    requires Bounded(s)
    ensures Bounded(r) && r.bot == s.bot && r.playback == s.playback && r.history == s.history
    ensures r.current.None? <==> s.current.None? && s.playlist == []
    ensures s.current.None? && s.playlist != [] ==>
              r.current == Some(Current(0, now, s.playlist[0])) && r.playlist == s.playlist[1..] && r.playState == Play
    ensures s.current.Some? || s.playlist == [] ==> r == s
  {
    if s.current.None? && s.playlist != [] then
      s.(current := Some(Current(0, now, s.playlist[0])), playlist := s.playlist[1..], playState := Play)
    else
      s
  }

  /** The state after `play_next` at clock reading now. */
  function PlayNextState(s: PlayerState, now: nat): (r: PlayerState)
    requires Bounded(s)
    ensures Bounded(r) && r.bot == s.bot && r.playback == s.playback
    ensures r.current.None? <==> s.playlist == [] && (s.current.None? || s.playback == Normal)
    ensures r.current.Some? ==> r.current.value.elapsed == 0 && r.current.value.since == now
    ensures s.current.Some? && s.playback == OneLoop ==>
              r == s.(current := Some(s.current.value.(elapsed := 0, since := now)))
    ensures s.current.Some? && s.playback == Normal ==>
              r.history == PushFront(s.history, s.current.value.track)
    ensures (s.current.None? || s.playback == Normal) && s.playlist != [] ==>
              r.current == Some(Current(0, now, s.playlist[0])) && r.playlist == s.playlist[1..] && r.playState == Play
    ensures s.current.Some? && s.playback == AllLoop ==>
              r.current == Some(Current(0, now, LoopPlaylist(s)[0])) && r.playlist == LoopPlaylist(s)[1..]
              && r.history == s.history && r.playState == Play
    ensures s.current.Some? && s.playback == AllLoop && s.playlist != [] ==>
              r.current.value.track == s.playlist[0] && 0 < |r.playlist| && r.playlist[|r.playlist| - 1] == s.current.value.track
    ensures s.current.None? ==> r.history == s.history
    ensures s.playlist == [] && (s.current.None? || s.playback == Normal) ==>
              r.playlist == [] && r.playState == s.playState
    ensures s.current.None? && s.playlist == [] ==> r == s
    ensures r.current.Some? && !(s.current.Some? && s.playback == OneLoop) ==>
              r.playState == Play && |r.playlist| < |s.playlist| + (if s.current.Some? && s.playback == AllLoop then 1 else 0)
  {
    TakeNext(MoveCurrent(s, now), now)
  }

  /** Whether `play_next` publishes: it does when it moved the current track
      away or took a new one from the playlist, but not for a OneLoop
      rewind. */
  predicate PlayNextChanges(s: PlayerState) {
    (s.current.Some? && s.playback != OneLoop) || (s.current.None? && s.playlist != [])
  }

  /** The call `play_next` ends with: play the current track, or stop when
      there is none. */
  function PlayNextCall(after: PlayerState): (c: ProviderCall)
    ensures c == StopCall <==> after.current.None?
    ensures after.current.Some? ==> c == PlayCall(after.current.value.track)
  {
    match after.current
    case None => StopCall
    case Some(cur) => PlayCall(cur.track)
  }

  /** `enqueue` rejects the whole batch exactly when its first track does
      not fit. */
  predicate EnqueueRejected(playlist: seq<Track>, tracks: seq<Track>) {
    tracks != [] && |playlist| >= Limit
  }

  /** The playlist after an accepted `enqueue`: the tracks appended in order
      until the playlist is full, the rest dropped. */
  function Enqueued(playlist: seq<Track>, tracks: seq<Track>): (r: seq<Track>)
    requires |playlist| <= Limit
    ensures |r| == Min(|playlist| + |tracks|, Limit)
    ensures r[..|playlist|] == playlist
    ensures forall j :: |playlist| <= j < |r| ==> r[j] == tracks[j - |playlist|]
  {
    Cap(playlist + tracks)
  }

  /** The player. Its fields are those of PlayerState; `published` is every
      snapshot sent on the watch channel since creation, and `calls` every
      call made on the Lavalink node. */
  class Player {
    const bot: nat
    var current: Option<Current>
    var playlist: seq<Track>
    var history: seq<Track>
    var playState: PlayState
    var playback: Playback
    ghost var published: seq<PlayerState>
    ghost var calls: seq<ProviderCall>

    ghost predicate Valid()
      reads this
    {
      |playlist| <= Limit && |history| <= Limit
    }

    /** The snapshot that `send` publishes. */
    function State(): (s: PlayerState)
      reads this
      ensures Valid() ==> Bounded(s)
    {
      PlayerState(bot, current, playlist, history, playState, playback)
    }

    /** PlayerState::new: no current track, empty deques, Play, Normal. */
    constructor (bot: nat)
      ensures Valid() && this.bot == bot
      ensures current == None && playlist == [] && history == []
      ensures playState == Play && playback == Normal
      ensures published == [] && calls == []
    {
      this.bot := bot;
      current := None;
      playlist := [];
      history := [];
      playState := Play;
      playback := Normal;
      published := [];
      calls := [];
    }

    /** `self.send.send(Arc::new(self.player_state.clone()))`. */
    method Publish()
      modifies this`published
      ensures published == old(published) + [State()]
    {
      published := published + [State()];
    }

    /** One call on the Lavalink node, answered by reply. */
    method CallNode(c: ProviderCall, reply: ProviderReply) returns (r: Result<(), PlayerError>)
      modifies this`calls
      ensures calls == old(calls) + [c] && r == ReplyResult(reply)
    {
      calls := calls + [c];
      r := ReplyResult(reply);
    }

    method PushToHistoryFront(t: Track)
      requires Valid()
      modifies this`history
      ensures Valid() && history == PushFront(old(history), t)
    {
      if |history| == Limit {
        history := history[..|history| - 1];
      }
      history := [t] + history;
    }

    method PushToPlaylistBack(t: Track)
      requires Valid()
      modifies this`playlist
      ensures Valid() && playlist == PushBack(old(playlist), t)
    {
      if |playlist| == Limit {
        playlist := playlist[..|playlist| - 1];
      }
      playlist := playlist + [t];
    }

    method PushToPlaylistFront(t: Track)
      requires Valid()
      modifies this`playlist
      ensures Valid() && playlist == PushFront(old(playlist), t)
    {
      if |playlist| == Limit {
        playlist := playlist[..|playlist| - 1];
      }
      playlist := [t] + playlist;
    }

    /** `resume`: the play state becomes Play only once the node accepted
      the call. */
    method Resume(reply: ProviderReply) returns (r: Result<(), PlayerError>)
      requires Valid()
      modifies this
      ensures Valid()
      ensures r == ReplyResult(reply) && calls == old(calls) + [ResumeCall]
      ensures reply.Done? ==> State() == old(State()).(playState := Play) && published == old(published) + [State()]
      ensures reply.Failed? ==> State() == old(State()) && published == old(published)
    {
      r := CallNode(ResumeCall, reply);
      if r.Err? {
        return;
      }
      playState := Play;
      Publish();
    }

    /** `pause`: the play state becomes Pause only once the node accepted
      the call. */
    method Pause(reply: ProviderReply) returns (r: Result<(), PlayerError>)
      requires Valid()
      modifies this
      ensures Valid()
      ensures r == ReplyResult(reply) && calls == old(calls) + [PauseCall]
      ensures reply.Done? ==> State() == old(State()).(playState := PlayState.Pause) && published == old(published) + [State()]
      ensures reply.Failed? ==> State() == old(State()) && published == old(published)
    {
      r := CallNode(PauseCall, reply);
      if r.Err? {
        return;
      }
      playState := PlayState.Pause;
      Publish();
    }

    /** `dynamic_pause_resume`: pause when playing, resume when paused. */
    method DynamicPauseResume(reply: ProviderReply) returns (r: Result<(), PlayerError>)
      requires Valid()
      modifies this
      ensures Valid()
      ensures r == ReplyResult(reply)
      ensures calls == old(calls) + [if old(playState) == Play then PauseCall else ResumeCall]
      ensures reply.Done? ==> State() == old(State()).(playState := if old(playState) == Play then PlayState.Pause else Play)
                              && published == old(published) + [State()]
      ensures reply.Failed? ==> State() == old(State()) && published == old(published)
    {
      match playState
      case Play => r := Pause(reply);
      case Pause => r := Resume(reply);
    }

    /** `skip(i)`: i == 0 does nothing at all; otherwise the current track
      and i - 1 playlist tracks are moved away (SkipQueues), a snapshot is
      published if there was a current track, and the node is told to
      stop. */
    method Skip(i: nat, reply: ProviderReply) returns (r: Result<(), PlayerError>)
      requires Valid()
      modifies this
      ensures Valid()
      ensures i == 0 ==> r == Ok(()) && State() == old(State()) && published == old(published) && calls == old(calls)
      ensures i > 0 ==> r == ReplyResult(reply) && calls == old(calls) + [StopCall]
      ensures i > 0 ==> State() == old(State()).(current := None,
                                                playlist := SkipQueues(old(State()), i).0,
                                                history := SkipQueues(old(State()), i).1)
      ensures i > 0 ==> published == old(published) + (if old(current).Some? then [State()] else [])
    {
      if i == 0 {
        return Ok(());
      }
      var changed := false;
      if current.Some? {
        var track := current.value.track;
        current := None;
        match playback {
          case AllLoop => PushToPlaylistBack(track);
          case _ => PushToHistoryFront(track);
        }
        changed := true;
      }
      ghost var p0, h0 := playlist, history;
      for k := 0 to i - 1
        invariant Valid() && current == None
        invariant playState == old(playState) && playback == old(playback)
        invariant published == old(published) && calls == old(calls)
        invariant changed == old(current).Some?
        invariant playback == AllLoop ==> history == h0 && RotateLoop(playlist, i - 1 - k) == RotateLoop(p0, i - 1)
        invariant playback != AllLoop ==> MoveFronts(playlist, history, i - 1 - k) == MoveFronts(p0, h0, i - 1)
      {
        if playlist == [] {
          break;
        }
        var track := playlist[0];
        playlist := playlist[1..];
        match playback {
          case AllLoop => PushToPlaylistBack(track);
          case _ => PushToHistoryFront(track);
        }
      }
      if changed {
        Publish();
      }
      r := CallNode(StopCall, reply);
    }

    /** `back_skip(i)`: i == 0 does nothing at all; otherwise the current
      track and up to i history tracks go to the playlist front
      (BackSkipQueues) and a snapshot is published if anything moved; with
      a current track the node is told to stop, without one `play_next`
      runs. */
    method BackSkip(i: nat, now: nat, reply: ProviderReply) returns (r: Result<(), PlayerError>)
      requires Valid()
      modifies this
      ensures Valid()
      ensures i == 0 ==> r == Ok(()) && State() == old(State()) && published == old(published) && calls == old(calls)
      ensures i > 0 ==> r == ReplyResult(reply)
      ensures i > 0 && old(current).Some? ==>
                State() == old(State()).(current := None,
                                         playlist := BackSkipQueues(old(State()), i).0,
                                         history := BackSkipQueues(old(State()), i).1)
                && published == old(published) + [State()]
                && calls == old(calls) + [StopCall]
      ensures i > 0 && old(current).None? ==>
                var moved := old(State()).(playlist := BackSkipQueues(old(State()), i).0,
                                           history := BackSkipQueues(old(State()), i).1);
                State() == PlayNextState(moved, now)
                && published == old(published) + (if old(history) != [] then [moved] else [])
                                                + (if PlayNextChanges(moved) then [State()] else [])
                && calls == old(calls) + [PlayNextCall(State())]
    {
      if i == 0 {
        return Ok(());
      }
      var currentWasSome := BackSkipMove(i);
      if currentWasSome {
        r := CallNode(StopCall, reply);
      } else {
        r := PlayNext(now, reply);
      }
    }

    /** The first part of `back_skip(i)` for i > 0: the queues become
      BackSkipQueues and a snapshot is published if anything moved;
      reports whether there was a current track. */
    method BackSkipMove(i: nat) returns (currentWasSome: bool)
      requires Valid() && i > 0
      modifies this`current, this`playlist, this`history, this`published
      ensures Valid() && currentWasSome == old(current).Some?
      ensures State() == old(State()).(current := None,
                                       playlist := BackSkipQueues(old(State()), i).0,
                                       history := BackSkipQueues(old(State()), i).1)
      ensures published == old(published) + (if old(current).Some? || old(history) != [] then [State()] else [])
    {
      var changed := false;
      currentWasSome := false;
      if current.Some? {
        var track := current.value.track;
        current := None;
        PushToPlaylistFront(track);
        changed := true;
        currentWasSome := true;
      }
      ghost var p0, h0 := playlist, history;
      for k := 0 to i
        invariant Valid() && current == None
        invariant published == old(published)
        invariant currentWasSome == old(current).Some?
        invariant h0 == old(history) && (k == 0 ==> history == h0) && (h0 == [] ==> history == [])
        invariant changed == (old(current).Some? || (k > 0 && h0 != []))
        invariant MoveFronts(history, playlist, i - k) == MoveFronts(h0, p0, i)
      {
        if history != [] {
          var track := history[0];
          history := history[1..];
          PushToPlaylistFront(track);
          changed := true;
        }
      }
      if changed {
        Publish();
      }
    }

    /** `enqueue(tracks)`: when the first track does not fit the whole call
      fails with PlaylistFull and changes nothing; otherwise the tracks are
      appended until the playlist is full, and then `play_next` runs if
      nothing is playing, else the new state is published. */
    method Enqueue(tracks: seq<Track>, now: nat, reply: ProviderReply) returns (r: Result<(), PlayerError>)
      requires Valid()
      modifies this
      ensures Valid()
      ensures EnqueueRejected(old(playlist), tracks) ==>
                r == Err(PlaylistFull(tracks[0])) && State() == old(State())
                && published == old(published) && calls == old(calls)
      ensures !EnqueueRejected(old(playlist), tracks) && old(current).None? ==>
                var queued := old(State()).(playlist := Enqueued(old(playlist), tracks));
                State() == PlayNextState(queued, now)
                && published == old(published) + (if PlayNextChanges(queued) then [State()] else [])
                && calls == old(calls) + [PlayNextCall(State())]
                && r == ReplyResult(reply)
      ensures !EnqueueRejected(old(playlist), tracks) && old(current).Some? ==>
                State() == old(State()).(playlist := Enqueued(old(playlist), tracks))
                && published == old(published) + [State()]
                && calls == old(calls) && r == Ok(())
    {
      for n := 0 to |tracks|
        invariant Valid()
        invariant State() == old(State()).(playlist := Cap(old(playlist) + tracks[..n]))
        invariant published == old(published) && calls == old(calls)
        invariant n > 0 ==> !EnqueueRejected(old(playlist), tracks)
      {
        CapSnoc(old(playlist) + tracks[..n], tracks[n]);
        assert old(playlist) + tracks[..n + 1] == old(playlist) + tracks[..n] + [tracks[n]];
        var pushed := |playlist| < Limit;
        if pushed {
          playlist := playlist + [tracks[n]];
        }
        if n == 0 && !pushed {
          return Err(PlaylistFull(tracks[0]));
        }
      }
      assert tracks[..|tracks|] == tracks;
      if current.None? {
        r := PlayNext(now, reply);
      } else {
        Publish();
        r := Ok(());
      }
    }

    /** `jump(pos)`: seeks on the node when there is a current track, fails
      with NoCurrentSong otherwise; the state is never changed. */
    method Jump(pos: nat, reply: ProviderReply) returns (r: Result<(), PlayerError>)
      ensures r == Err(NoCurrentSong) <==> current.None?
      ensures current.Some? ==> r == ReplyResult(reply) && calls == old(calls) + [JumpCall(pos)]
      ensures current.None? ==> calls == old(calls)
      ensures State() == old(State()) && published == old(published)
      modifies this`calls
    {
      if current.Some? {
        r := CallNode(JumpCall(pos), reply);
        return;
      }
      return Err(NoCurrentSong);
    }

    /** `clear_queue`: empties the playlist, publishing only if it had
      something in it. */
    method ClearQueue()
      requires Valid()
      modifies this`playlist, this`published
      ensures Valid()
      ensures State() == old(State()).(playlist := [])
      ensures published == old(published) + (if old(playlist) != [] then [State()] else [])
    {
      if playlist != [] {
        playlist := [];
        Publish();
      }
    }

    /** `playback(m)`: the mode becomes ToggledMode(old mode, m), and the
      state is always published. */
    method SetPlayback(m: Playback)
      requires Valid()
      modifies this`playback, this`published
      ensures Valid()
      ensures State() == old(State()).(playback := ToggledMode(old(playback), m))
      ensures published == old(published) + [State()]
    {
      if playback != m {
        playback := m;
      } else {
        playback := Normal;
      }
      Publish();
    }

    /** `play_next` (also `track_end`): see PlayNextState, PlayNextChanges and
      PlayNextCall. */
    method PlayNext(now: nat, reply: ProviderReply) returns (r: Result<(), PlayerError>)
      requires Valid()
      modifies this
      ensures Valid()
      ensures State() == PlayNextState(old(State()), now)
      ensures published == old(published) + (if PlayNextChanges(old(State())) then [State()] else [])
      ensures calls == old(calls) + [PlayNextCall(State())]
      ensures r == ReplyResult(reply)
    {
      var moved := MoveCurrentAway(now);
      var took := TakeFromPlaylist(now);
      if moved || took {
        Publish();
      }
      match current {
        case None => r := CallNode(StopCall, reply);
        case Some(cur) => r := CallNode(PlayCall(cur.track), reply);
      }
    }

    /** The first half of `play_next`; reports whether the current track
      left its slot. */
    method MoveCurrentAway(now: nat) returns (moved: bool)
      requires Valid()
      modifies this`current, this`playlist, this`history
      ensures Valid()
      ensures State() == MoveCurrent(old(State()), now)
      ensures moved == (old(current).Some? && playback != OneLoop)
    {
      moved := false;
      if current.Some? {
        var cur := current.value;
        match playback {
          case Normal =>
            current := None;
            PushToHistoryFront(cur.track);
            moved := true;
          case AllLoop =>
            current := None;
            PushToPlaylistBack(cur.track);
            moved := true;
          case OneLoop =>
            current := Some(cur.(elapsed := 0, since := now));
        }
      }
    }

    /** The second half of `play_next`; reports whether a track was taken
      from the playlist. */
    method TakeFromPlaylist(now: nat) returns (took: bool)
      requires Valid()
      modifies this`current, this`playlist, this`playState
      ensures Valid()
      ensures State() == TakeNext(old(State()), now)
      ensures took == (old(current).None? && old(playlist) != [])
    {
      took := false;
      if current.None? && playlist != [] {
        var track := playlist[0];
        playlist := playlist[1..];
        current := Some(Current(0, now, track));
        playState := Play;
        took := true;
      }
    }

    /** `track_end`: the node finished a track, so the next one is played. */
    method TrackEnd(now: nat, reply: ProviderReply) returns (r: Result<(), PlayerError>)
      requires Valid()
      modifies this
      ensures Valid()
      ensures State() == PlayNextState(old(State()), now)
      ensures published == old(published) + (if PlayNextChanges(old(State())) then [State()] else [])
      ensures calls == old(calls) + [PlayNextCall(State())]
      ensures r == ReplyResult(reply)
    {
      r := PlayNext(now, reply);
    }

    /** `update`: the node reported the position (ms) of the current track;
      with a current track its (position, instant) pair is replaced and the
      state published, without one nothing happens. */
    method Update(position: nat, now: nat)
      requires Valid()
      modifies this`current, this`published
      ensures Valid()
      ensures old(current).None? ==> State() == old(State()) && published == old(published)
      ensures old(current).Some? ==>
                State() == old(State()).(current := Some(Current(position, now, old(current).value.track)))
                && published == old(published) + [State()]
    {
      if current.Some? {
        current := Some(Current(position, now, current.value.track));
        Publish();
      }
    }
  }
}
