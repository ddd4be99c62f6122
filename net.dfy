/** The companion-app side of src/net.rs: the player state as sent over
    the wire (gen_player_state and the track and mode conversions), the
    dispatch of a control request to the player manager, and the pusher
    loop that turns the player's published states into a first full state
    followed by patches. */
module Net {
  import opened Wrappers
  import P = Player

  /** The play mode on the wire. */
  datatype PlayMode = Normal | LoopAll | LoopOne

  /** parse_mode: a wire mode to the player's loop mode. */
  function ParseMode(m: PlayMode): (p: P.Playback)
  {
    match m
    case Normal => P.Normal
    case LoopAll => P.AllLoop
    case LoopOne => P.OneLoop
  }

  /** `From<Playback> for PlayMode`: the inverse of ParseMode. */
  function FromPlayback(p: P.Playback): (m: PlayMode)
    ensures ParseMode(m) == p
  {
    match p
    case Normal => Normal
    case AllLoop => LoopAll
    case OneLoop => LoopOne
  }

  /** The two conversions are mutually inverse, so the mode a client sets
      is the mode it is shown. */
  lemma ModeRoundTrip(m: PlayMode)
    ensures FromPlayback(ParseMode(m)) == m
  {
  }

  /** A track on the wire: length and position in ms, title and uri. */
  datatype WireTrack = WireTrack(len: nat, pos: nat, title: string, uri: string)

  /** The bot as the companion app shows it. */
  datatype BotInfo = BotInfo(name: string, avatar: string)

  /** The parts of the bot's cached user that the wire state needs. */
  datatype CurrentUser = CurrentUser(name: string, avatarUrl: Option<string>, defaultAvatarUrl: string)

  /** The player state on the wire. */
  datatype WireState = WireState(
    bot: BotInfo,
    paused: bool,
    mode: PlayMode,
    current: Option<WireTrack>,
    history: seq<WireTrack>,
    queue: seq<WireTrack>)

  /** parse_track: a track without metadata has no wire form. */
  function ParseTrack(t: P.Track): (r: Option<WireTrack>)
    ensures r.Some? <==> t.info.Some?
    ensures r.Some? ==> r.value.len == t.info.value.length && r.value.pos == t.info.value.position
                        && r.value.title == t.info.value.title && r.value.uri == t.info.value.uri
  {
    match t.info
    case None => None
    case Some(info) => Some(WireTrack(info.length, info.position, info.title, info.uri))
  }

  /** parse_cur_track at clock reading now: like parse_track, but the
      position is the captured position plus the time elapsed since it was
      captured (zero if the clock reads earlier). */
  function ParseCurTrack(cur: P.Current, now: nat): (r: Option<WireTrack>)
    ensures r.Some? <==> cur.track.info.Some?
    ensures r.Some? ==> r.value.pos >= cur.elapsed && r.value.len == cur.track.info.value.length
    ensures r.Some? && now >= cur.since ==> r.value.pos == cur.elapsed + (now - cur.since)
    ensures r.Some? && now < cur.since ==> r.value.pos == cur.elapsed
    ensures r.Some? ==> r.value.title == cur.track.info.value.title && r.value.uri == cur.track.info.value.uri
  {
    match cur.track.info
    case None => None
    case Some(info) =>
      var elapsed := if now >= cur.since then now - cur.since else 0;
      Some(WireTrack(info.length, cur.elapsed + elapsed, info.title, info.uri))
  }

  /** `.iter().map(parse_track).flatten().collect()`: the wire forms of the
      tracks that have metadata, in order. */
  function ParseTracks(ts: seq<P.Track>): (r: seq<WireTrack>)
    ensures |r| <= |ts|
  {
    if ts == [] then []
    else match ParseTrack(ts[0])
      case None => ParseTracks(ts[1..])
      case Some(w) => [w] + ParseTracks(ts[1..])
  }

  /** ParseTracks works track by track: the wire form of a concatenation is
      the concatenation of the wire forms. */
  lemma {:induction false} ParseTracksAppend(a: seq<P.Track>, b: seq<P.Track>)
    ensures ParseTracks(a + b) == ParseTracks(a) + ParseTracks(b)
  {
    if a == [] {
      assert a + b == b;
    } else {
      assert (a + b)[0] == a[0] && (a + b)[1..] == a[1..] + b;
      ParseTracksAppend(a[1..], b);
    }
  }

  predicate AllHaveInfo(ts: seq<P.Track>) {
    forall i :: 0 <= i < |ts| ==> ts[i].info.Some?
  }

  /** When every track has metadata nothing is dropped: the wire list is
      the tracks' wire forms, one for one and in order. */
  lemma {:induction false} ParseTracksKeepsAll(ts: seq<P.Track>)
    requires AllHaveInfo(ts)
    ensures |ParseTracks(ts)| == |ts|
    ensures forall i :: 0 <= i < |ts| ==> Some(ParseTracks(ts)[i]) == ParseTrack(ts[i])
  {
    if ts != [] {
      ParseTracksKeepsAll(ts[1..]);
      var rest := ParseTracks(ts[1..]);
      assert ParseTracks(ts) == [ParseTrack(ts[0]).value] + rest;
      forall i | 0 <= i < |ts|
        ensures Some(ParseTracks(ts)[i]) == ParseTrack(ts[i])
      {
        if i > 0 {
          assert ts[1..][i - 1] == ts[i];
        }
      }
    }
  }

  /** A track without metadata is dropped from the wire list. */
  lemma ParseTracksDropsMissing(ts: seq<P.Track>, t: P.Track)
    requires t.info.None?
    ensures ParseTracks(ts + [t]) == ParseTracks(ts)
  {
    ParseTracksAppend(ts, [t]);
    assert ParseTracks([t]) == [];
  }

  /** gen_player_state for the bot user, a published player state and a
      clock reading. */
  function GenPlayerState(user: CurrentUser, ps: P.PlayerState, now: nat): (r: WireState)
    ensures r.bot.name == user.name
    ensures r.bot.avatar == if user.avatarUrl.Some? then user.avatarUrl.value else user.defaultAvatarUrl
    ensures r.paused <==> P.IsPaused(ps.playState)
    ensures ParseMode(r.mode) == ps.playback
    ensures r.current.Some? <==> ps.current.Some? && ps.current.value.track.info.Some?
    ensures ps.current.Some? ==> r.current == ParseCurTrack(ps.current.value, now)
    ensures r.history == ParseTracks(ps.history) && r.queue == ParseTracks(ps.playlist)
    ensures |r.history| <= |ps.history| && |r.queue| <= |ps.playlist|
  {
    var current := match ps.current
      case None => None
      case Some(cur) => ParseCurTrack(cur, now);
    var avatar := match user.avatarUrl
      case Some(url) => url
      case None => user.defaultAvatarUrl;
    WireState(
      BotInfo(user.name, avatar),
      P.IsPaused(ps.playState),
      FromPlayback(ps.playback),
      current,
      ParseTracks(ps.history),
      ParseTracks(ps.playlist))
  }

  // ---------------------------------------------------------------------
  // Control requests
  // ---------------------------------------------------------------------

  /** The controls a companion client can send. */
  datatype PlayerControl =
    | Resume
    | Pause
    | Skip(count: nat)
    | BackSkip(count: nat)
    | SetTime(position: nat)
    | Mode(mode: PlayMode)
    | Enqueue(query: string)
    | Leave
    | Join

  /** The requests the player manager takes, each for a voice channel. */
  datatype PlayerRequest =
    | PauseResume(channel: nat)
    | SkipRequest(count: nat, channel: nat)
    | BackSkipRequest(count: nat, channel: nat)
    | JumpRequest(position: nat, channel: nat)
    | PlaybackRequest(playback: P.Playback, channel: nat)
    | EnqueueRequest(tracks: seq<P.Track>, channel: nat)

  /** What handle_control_req asks of the player manager. */
  datatype ManagerCall =
    | Request(request: PlayerRequest)
    | Search(channel: nat, query: string)
    | LeaveCall(channel: nat)
    | JoinCall(channel: nat)

  /** The bot's voice state in the client's guild: (guild, channel). */
  datatype VoiceState = VoiceState(guild: nat, channel: nat)

  /** PlayerControlResult: the request echoed with its outcome; an error is
      a text. */
  datatype ControlResult = ControlResult(uuid: string, req: PlayerControl, res: Result<(), string>)

  const NoBotInChannel: string := "No Bot in Channel"
  const InternalError: string := "Internal Error"

  /** The manager call a control makes first. */
  function FirstCall(con: PlayerControl, channel: nat): (c: ManagerCall)
  {
    match con
    case Resume => Request(PauseResume(channel))
    case Pause => Request(PauseResume(channel))
    case Skip(i) => Request(SkipRequest(i, channel))
    case BackSkip(i) => Request(BackSkipRequest(i, channel))
    case SetTime(pos) => Request(JumpRequest(pos, channel))
    case Mode(m) => Request(PlaybackRequest(ParseMode(m), channel))
    case Enqueue(q) => Search(channel, q)
    case Leave => LeaveCall(channel)
    case Join => JoinCall(channel)
  }

  /** The decisions of handle_control_req. The bot's voice state, the
      guilds that have a player manager, the manager's search answer and
      its answer to the last call are parameters; the result is the
      manager calls made, in order, and the result sent back. Errors are
      the texts the manager's errors print as. */
  function HandleControl(uuid: string, con: PlayerControl, voice: Option<VoiceState>, managed: set<nat>,
                         search: Result<seq<P.Track>, string>, answer: Result<(), string>)
    : (r: (seq<ManagerCall>, ControlResult))
    ensures r.1.uuid == uuid && r.1.req == con
    ensures voice.None? ==> r.0 == [] && r.1.res == Err(NoBotInChannel)
    ensures voice.Some? && voice.value.guild !in managed ==> r.0 == [] && r.1.res == Err(InternalError)
    ensures voice.Some? && voice.value.guild in managed ==>
              1 <= |r.0| <= 2 && r.0[0] == FirstCall(con, voice.value.channel)
    ensures voice.Some? && voice.value.guild in managed && (con.Resume? || con.Pause?) ==>
              r.0 == [Request(PauseResume(voice.value.channel))] && r.1.res == answer
    ensures voice.Some? && voice.value.guild in managed && con.Enqueue? ==>
              (search.Err? ==> r.0 == [Search(voice.value.channel, con.query)] && r.1.res == Err(search.error))
              && (search.Ok? ==> r.0 == [Search(voice.value.channel, con.query),
                                         Request(EnqueueRequest(search.value[..if search.value == [] then 0 else 1], voice.value.channel))]
                                 && r.1.res == answer)
    ensures voice.Some? && voice.value.guild in managed && !con.Enqueue? ==> |r.0| == 1 && r.1.res == answer
  {
    match voice
    case None => ([], ControlResult(uuid, con, Err(NoBotInChannel)))
    case Some(vs) =>
      if vs.guild !in managed then ([], ControlResult(uuid, con, Err(InternalError)))
      else
        var first := FirstCall(con, vs.channel);
        if con.Enqueue? then
          match search
          case Err(e) => ([first], ControlResult(uuid, con, Err(e)))
          case Ok(tracks) =>
            var taken := if tracks == [] then [] else tracks[..1];
            ([first, Request(EnqueueRequest(taken, vs.channel))], ControlResult(uuid, con, answer))
        else
          ([first], ControlResult(uuid, con, answer))
  }

  /** Resume and Pause cannot be told apart by the player: both toggle. */
  lemma ResumeAndPauseBothToggle(uuid: string, voice: Option<VoiceState>, managed: set<nat>,
                                 search: Result<seq<P.Track>, string>, answer: Result<(), string>)
    ensures HandleControl(uuid, Resume, voice, managed, search, answer).0
         == HandleControl(uuid, Pause, voice, managed, search, answer).0
  {
  }

  /** An enqueue control hands the player at most one track, the first
      search result. */
  lemma EnqueueTakesFirstResult(uuid: string, q: string, vs: VoiceState, managed: set<nat>,
                                tracks: seq<P.Track>, answer: Result<(), string>)
    requires vs.guild in managed
    ensures var calls := HandleControl(uuid, Enqueue(q), Some(vs), managed, Ok(tracks), answer).0;
            |calls| == 2 && calls[1].Request? && calls[1].request.EnqueueRequest?
            && calls[1].request.tracks <= tracks && |calls[1].request.tracks| == if tracks == [] then 0 else 1
  {
  }

  // ---------------------------------------------------------------------
  // The state pusher
  // ---------------------------------------------------------------------

  /** A patch from one wire state to another; its encoding belongs to the
      shared communication library. */
  datatype Patch = Patch(bytes: seq<bv8>)

  /** The player-state messages a client receives. */
  datatype StateMessage = FullState(state: WireState) | UpdateState(patch: Patch) | EmptyState

  /** One change notification of the player's watch: the state then
      current, and the clock reading at which it is converted. */
  datatype Observation = Observation(state: P.PlayerState, now: nat)

  /** The pusher loop after the first full state: for each observation the
      new wire state is generated; an equal state sends nothing; otherwise
      a patch from the last sent state is generated (diff), and if that
      fails nothing is sent and the last state is kept, else the patch is
      sent and the new state becomes the last. The result is the last
      state afterwards and the messages sent. */
  function PushTrace(user: CurrentUser, last: WireState, obs: seq<Observation>,
                     diff: (WireState, WireState) -> Option<Patch>): (r: (WireState, seq<StateMessage>))
    ensures |r.1| <= |obs|
    ensures forall i :: 0 <= i < |r.1| ==> r.1[i].UpdateState?
    decreases |obs|
  {
    if obs == [] then (last, [])
    else
      var next := GenPlayerState(user, obs[0].state, obs[0].now);
      if next == last then PushTrace(user, last, obs[1..], diff)
      else match diff(last, next)
        case None => PushTrace(user, last, obs[1..], diff)
        case Some(p) =>
          var rest := PushTrace(user, next, obs[1..], diff);
          (rest.0, [UpdateState(p)] + rest.1)
  }

  /** The inner loop of the pusher: each observation in turn is converted,
      compared with the last sent state and, when it differs and a patch
      can be made, sent as a patch. */
  method PushPatches(user: CurrentUser, start: WireState, obs: seq<Observation>,
                     diff: (WireState, WireState) -> Option<Patch>)
    returns (last: WireState, patches: seq<StateMessage>)
    ensures (last, patches) == PushTrace(user, start, obs, diff)
  {
    last, patches := start, [];
    var i := 0;
    while i < |obs|
      invariant 0 <= i <= |obs|
      invariant var whole := PushTrace(user, start, obs, diff);
                var here := PushTrace(user, last, obs[i..], diff);
                here.0 == whole.0 && patches + here.1 == whole.1
    {
      assert obs[i..][1..] == obs[i + 1..];
      var next := GenPlayerState(user, obs[i].state, obs[i].now);
      if next != last {
        var patch := diff(last, next);
        if patch.Some? {
          last := next;
          patches := patches + [UpdateState(patch.value)];
        }
      }
      i := i + 1;
    }
    assert obs[i..] == [];
    assert PushTrace(user, last, obs[i..], diff) == (last, []);
    assert patches + [] == patches;
  }

  /** The pusher for one watch: the first state goes out whole, then the
      patches of PushTrace; when the watch then closes (closed), an empty
      state follows. */
  method PushStates(user: CurrentUser, first: Observation, obs: seq<Observation>,
                    diff: (WireState, WireState) -> Option<Patch>, closed: bool)
    returns (last: WireState, sent: seq<StateMessage>)
    ensures var full := GenPlayerState(user, first.state, first.now);
            var t := PushTrace(user, full, obs, diff);
            last == t.0 && sent == [FullState(full)] + t.1 + (if closed then [EmptyState] else [])
    ensures sent[|sent| - 1] == EmptyState <==> closed
  {
    var full := GenPlayerState(user, first.state, first.now);
    var patches;
    last, patches := PushPatches(user, full, obs, diff);
    sent := [FullState(full)] + patches;
    if closed {
      sent := sent + [EmptyState];
    } else if |patches| > 0 {
      assert sent[|sent| - 1] == patches[|patches| - 1];
    }
  }

  /** What a client holds after applying the messages to the state it
      started from: each patch moves it along, a full state replaces it. */
  function Replay(state: WireState, msgs: seq<StateMessage>, apply: (WireState, Patch) -> WireState): WireState
    decreases |msgs|
  {
    if msgs == [] then state
    else match msgs[0]
      case UpdateState(p) => Replay(apply(state, p), msgs[1..], apply)
      case FullState(s) => Replay(s, msgs[1..], apply)
      case EmptyState => Replay(state, msgs[1..], apply)
  }

  /** When applying a patch reproduces the state it was made for, a client
      that replays the sent patches over the first full state always holds
      the server's last sent state. */
  lemma {:induction false} ClientFollowsPusher(user: CurrentUser, last: WireState, obs: seq<Observation>,
                                               diff: (WireState, WireState) -> Option<Patch>,
                                               apply: (WireState, Patch) -> WireState)
    requires forall a, b, p :: diff(a, b) == Some(p) ==> apply(a, p) == b
    ensures var t := PushTrace(user, last, obs, diff);
            Replay(last, t.1, apply) == t.0
    decreases |obs|
  {
    if obs != [] {
      var next := GenPlayerState(user, obs[0].state, obs[0].now);
      if next != last && diff(last, next).Some? {
        ClientFollowsPusher(user, next, obs[1..], diff, apply);
        var rest := PushTrace(user, next, obs[1..], diff);
        var msgs := [UpdateState(diff(last, next).value)] + rest.1;
        assert msgs[1..] == rest.1;
      } else {
        ClientFollowsPusher(user, last, obs[1..], diff, apply);
      }
    }
  }

  /** When patch generation never fails, the last state the pusher holds
      is the wire form of the last observation. */
  lemma {:induction false} PusherEndsAtLatest(user: CurrentUser, last: WireState, obs: seq<Observation>,
                                              diff: (WireState, WireState) -> Option<Patch>)
    requires forall a, b :: diff(a, b).Some?
    requires obs != []
    ensures PushTrace(user, last, obs, diff).0
         == GenPlayerState(user, obs[|obs| - 1].state, obs[|obs| - 1].now)
    decreases |obs|
  {
    var next := GenPlayerState(user, obs[0].state, obs[0].now);
    if |obs| > 1 {
      assert obs[1..][|obs| - 2] == obs[|obs| - 1];
      if next == last {
        PusherEndsAtLatest(user, last, obs[1..], diff);
      } else {
        PusherEndsAtLatest(user, next, obs[1..], diff);
      }
    }
  }

  /** Notifications whose state converts to the last sent one send
      nothing and change nothing. */
  lemma {:induction false} UnchangedSendsNothing(user: CurrentUser, last: WireState, obs: seq<Observation>,
                                                 diff: (WireState, WireState) -> Option<Patch>)
    requires forall i :: 0 <= i < |obs| ==> GenPlayerState(user, obs[i].state, obs[i].now) == last
    ensures PushTrace(user, last, obs, diff) == (last, [])
    decreases |obs|
  {
    if obs != [] {
      assert GenPlayerState(user, obs[0].state, obs[0].now) == last;
      forall i | 0 <= i < |obs[1..]|
        ensures GenPlayerState(user, obs[1..][i].state, obs[1..][i].now) == last
      {
        assert obs[1..][i] == obs[i + 1];
      }
      UnchangedSendsNothing(user, last, obs[1..], diff);
    }
  }
}
