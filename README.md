# reciprocity_bot: a Dafny model of the player core

reciprocity_bot is a Discord music bot. Each voice channel has a
**player**. The player keeps:

- the track now playing (`current`);
- a **playlist** of queued tracks and a **history** of played tracks, each a deque capped at `MUSIC_QUEUE_LIMIT` = 100;
- a play/pause flag and a loop mode (Normal, AllLoop, OneLoop).

Commands (skip, back skip, enqueue, clear, set loop mode, pause/resume, position update) change this state in place, and jump only seeks. A command may publish a snapshot on a watch channel and may make one call on a Lavalink audio node (play, stop, pause, resume or seek), and which it does depends on the command:

- pause and resume call the node first, and change the state and publish only when the node accepted;
- skip publishes only when there was a current track, then calls stop; back skip and play_next publish when something moved, then call stop or play;
- clear, set loop mode and position update make no node call; clear publishes only when the playlist was non-empty, set loop mode always, and update whenever a track is current;
- enqueue with a track playing publishes and makes no node call; with nothing playing it runs play_next;
- jump makes a seek call and never publishes.

Around the player sit two smaller pieces:

- **Reaction-emoji UI** (`src/guild/message_manager.rs`). Actions map to emoji and back. Durations print as `[hh:]mm:ss`. A search message lists up to ten results, and the requester picks one by reacting with a keycap number.
- **Companion-app protocol** (`src/net.rs`). Player snapshots are projected to a wire state. Client control requests are dispatched to the player manager. A pusher sends one full state, then a patch for every change whose patch could be generated (a change whose patch generation fails is skipped).

The project has six files:

| file | contents |
|---|---|
| `wrappers.dfy` | Option, Result, Min |
| `player_queue.dfy` | The bounded deques. It holds the evicting pushes and the two loops that move tracks between deques (`MoveFronts` for skip/back-skip, `RotateLoop` for skip in AllLoop), with closed forms for both. |
| `player.dfy` | The player's types and the specification functions of its commands (`SkipQueues`, `BackSkipQueues`, `PlayNextState`, `Enqueued`, `ToggledMode`). It also has `class Player`, whose methods update the fields in place. Each method is proved against those functions, with a log of published snapshots and a log of node calls. |
| `decimal.dfy` | Decimal text for `{}` and `{:02}`, its reading back, and splitting at `:`. |
| `message_manager.dfy` | The emoji codec, `duration_fmt`, and the search message's emotes, selection and text. |
| `net.dfy` | Mode and track conversions, `gen_player_state`, control dispatch, and the pusher loop. |

Other modelling choices:

- **Clocks.** `Instant::now()` becomes a clock-reading parameter `now`, and a `Duration` becomes a number of milliseconds.
- **Lavalink.** The answer of a call to the node is a parameter (`ProviderReply`). The call itself is recorded in the ghost log `calls`.
- **Publishing.** Every publish on the watch channel appends the snapshot to the ghost log `published`.

## Model

| member | source | states |
|---|---|---|
| `PlayerQueue.Cap` | src/player.rs:19 | A deque holds the first min(n, 100) elements of what was pushed into it, in order. |
| `PlayerQueue.PushFront` | src/player.rs:184-195 | A front push into a full deque drops the back element first. The pushed track is always at the front afterwards, and the length stays ≤ 100 (also `push_to_playlist_front`, 210-221). |
| `PlayerQueue.PushBack` | src/player.rs:197-208 | A back push into a full deque drops the back element first. The pushed track is always last, and the older elements keep their order. |
| `PlayerQueue.MoveFronts` | src/player.rs:129-138 | Moving up to n front elements from one deque to another never grows the source and keeps the target ≤ 100. |
| `PlayerQueue.RotateLoop` | src/player.rs:129-138 | The AllLoop skip loop keeps the playlist length. |
| `PlayerQueue.MoveFrontsClosedForm` | src/player.rs:129-138 | With k = min(n, len(src)), the source loses its first k elements. They land reversed on the target front, and the target is cut to 100. |
| `PlayerQueue.MoveFrontsOnto` | src/player.rs:164-171 | The same closed form when the target first received a current track at its front. |
| `PlayerQueue.RotateLoopIsRotation` | src/player.rs:129-138 | For n ≤ len(s) rounds, the AllLoop loop rotates the playlist left by n places. |
| `PlayerQueue.RotateLoopAdditive` | src/player.rs:129-138 | n rounds followed by m rounds are n + m rounds. |
| `PlayerQueue.RotateLoopPeriodic` | src/player.rs:129-138 | A full turn of len(s) rounds leaves the playlist unchanged. |
| `PlayerQueue.RotatedIsPermutation` | src/player.rs:129-138 | A rotation loses no track and adds none. |
| `PlayerQueue.RotateLoopMod` | src/player.rs:129-138 | For any number n of rounds on a non-empty playlist, the AllLoop loop rotates it left by n modulo its length. |
| `PlayerQueue.RotateLoopPermutes` | src/player.rs:129-138 | For any number of rounds, the AllLoop loop loses no track and adds none. |
| `PlayerQueue.CapAppend` | src/player.rs:129-138 | Cap(x + Cap(y)) == Cap(x + y): capping a deque and then pushing more in front before capping again keeps the same elements as capping once. The closed forms of the skip and back-skip loops (also 164-171) rest on it. |
| `PlayerQueue.CapSnoc` | src/player.rs:226-232 | An appended track gets in exactly when there is room; otherwise the playlist is unchanged. |
| `Player.IsPaused` | src/player.rs:396-403 | Paused exactly when the play state is not Play. |
| `Player.IsFatal` | src/player.rs:445-453 | An error is fatal exactly when it is a Lavalink error caused by a closed node websocket, so a fatal error is always a Lavalink error. |
| `Player.IsLavalinkError` | src/player.rs:441-443 | Exactly the Lavalink errors. IsFatal and ReplyResult state that fatal and node errors are such errors. |
| `Player.ReplyResult` | src/player.rs:83-103 | A node call succeeds exactly when the node accepted it. A failure is the node's own error wrapped as `PlayerError::Lavalink`, and it is fatal exactly when the node's websocket closed. |
| `Player.ToggledMode` | src/player.rs:261-268 | The new mode is m or Normal. It is Normal exactly when the old mode was already m or m is Normal. |
| `Player.ToggledTwice` | src/player.rs:261-268 | Setting the same mode twice gives Normal, unless the mode already was m: then it gives m. |
| `Player.SkipQueues` | src/player.rs:118-138 | Skipping keeps both deques ≤ 100. |
| `Player.SkipToHistory` | src/player.rs:118-138 | Outside AllLoop, with k = min(i − 1, len(playlist)), the playlist loses its first k tracks. The history becomes those k tracks reversed, then the old current track, then the old history, cut to 100. |
| `Player.LoopPlaylist` | src/player.rs:121-126 | The playlist the AllLoop skip rotates: without a current track, the old playlist; with room, the old playlist followed by the current track; with a full playlist and a current track, the last playlist track is evicted and the current track takes its place. |
| `Player.SkipRotates` | src/player.rs:118-138 | In AllLoop, for every i > 0, the history is untouched and the playlist is LoopPlaylist rotated left by (i − 1) mod its length (empty if it is empty), so it has the same multiset of tracks as LoopPlaylist. The only track a skip can lose is the one evicted when the current track is pushed onto a full playlist. |
| `Player.BackSkipQueues` | src/player.rs:155-171 | Back-skipping keeps both deques ≤ 100. |
| `Player.BackSkipClosedForm` | src/player.rs:155-171 | With k = min(i, len(history)), the playlist becomes h[k−1] … h[0], then the old current track, then the old playlist, cut to 100. The history loses its first k tracks. |
| `Player.MoveCurrent` | src/player.rs:309-331 | The first half of play_next. Normal puts the current track at the history front and AllLoop at the playlist back (LoopPlaylist), leaving the other deque alone. OneLoop keeps the track current, rewound to position 0 at clock reading now, and changes nothing else. Without a current track nothing changes. Play state and mode are kept. |
| `Player.TakeNext` | src/player.rs:333-340 | With an empty slot and a non-empty playlist, the playlist front becomes current at position 0 and playing. Otherwise nothing changes. |
| `Player.PlayNextState` | src/player.rs:306-340 | No current track remains exactly when the playlist was empty and either there was no current track or the mode is Normal. Without a current track or in Normal, a non-empty playlist gives its front as the new current track at position 0, playing, and loses it. In AllLoop the new current track is the front of LoopPlaylist, which loses it, so the old track goes to the back. OneLoop only rewinds. Normal puts the old track at the history front. With nothing left to play (empty playlist, and no current track or Normal) the playlist stays empty and the play state is kept; with no current track and an empty playlist nothing changes at all. |
| `Player.PlayNextChanges` | src/player.rs:307-342 | play_next's `changed` flag: the current track moved away (not a OneLoop rewind), or a track was taken from the playlist. PlayNext states that it publishes exactly then. |
| `Player.PlayNextCall` | src/player.rs:346-359 | play_next ends with stop exactly when there is no current track, and otherwise plays exactly the current track. |
| `Player.Enqueued` | src/player.rs:223-233 | Tracks are appended in order until the playlist holds 100. The rest are dropped, and the old playlist stays its prefix. |
| `Player.EnqueueRejected` | src/player.rs:226-230 | The whole enqueue fails exactly when there is a first track and the playlist is full. Enqueue states that nothing changes then. |
| `Player.Player.State` | src/player.rs:456-464 | A snapshot of a valid player has both deques ≤ 100. |
| `Player.Player.constructor` | src/player.rs:466-477 | A new player state has no current track, empty deques, Play and Normal. |
| `Player.Player.Publish` | src/player.rs:90 | Publishing appends the current snapshot to the published log. |
| `Player.Player.CallNode` | src/player.rs:84-87 | A node call is logged, and its answer is mapped as ReplyResult. |
| `Player.Player.PushToHistoryFront` | src/player.rs:184-195 | The history becomes PushFront of the old history. |
| `Player.Player.PushToPlaylistBack` | src/player.rs:197-208 | The playlist becomes PushBack of the old playlist. |
| `Player.Player.PushToPlaylistFront` | src/player.rs:210-221 | The playlist becomes PushFront of the old playlist. |
| `Player.Player.Resume` | src/player.rs:83-92 | Calls resume. Only if the node accepted does it set Play and publish once; on failure nothing changes. |
| `Player.Player.Pause` | src/player.rs:94-103 | Calls pause. Only if the node accepted does it set Pause and publish once; on failure nothing changes. |
| `Player.Player.DynamicPauseResume` | src/player.rs:105-110 | Pauses when playing and resumes when paused, with the same success and failure rules. |
| `Player.Player.Skip` | src/player.rs:112-147 | skip(0) changes, publishes and calls nothing. Otherwise the current slot is empty and the deques are SkipQueues. One snapshot is published iff there was a current track, and the call is stop. |
| `Player.Player.BackSkip` | src/player.rs:150-181 | back_skip(0) does nothing. Otherwise the deques are BackSkipQueues. With a current track it publishes once and stops; without one it publishes if the history was non-empty, then runs play_next. |
| `Player.Player.BackSkipMove` | src/player.rs:155-173 | The moving part of back_skip: the current slot is emptied and the deques become BackSkipQueues. It publishes once iff there was a current track or the history was non-empty. |
| `Player.Player.Enqueue` | src/player.rs:223-240 | If the first track does not fit, the result is PlaylistFull(first track) and nothing changes. Otherwise the playlist is Enqueued. Then play_next runs if nothing is playing; else there is one publish and no node call. |
| `Player.Player.Jump` | src/player.rs:242-252 | Fails with NoCurrentSong exactly when nothing is playing. Otherwise it seeks on the node; the state never changes. |
| `Player.Player.ClearQueue` | src/player.rs:254-259 | The playlist becomes empty. It publishes exactly when the playlist was non-empty. |
| `Player.Player.SetPlayback` | src/player.rs:261-268 | The mode becomes ToggledMode(old, m), and the state is always published. |
| `Player.Player.PlayNext` | src/player.rs:306-360 | The new state is PlayNextState. It publishes iff the current track moved away or a new one was taken, then calls play or stop as PlayNextCall. |
| `Player.Player.MoveCurrentAway` | src/player.rs:309-331 | Performs MoveCurrent, and reports whether the current track left its slot. |
| `Player.Player.TakeFromPlaylist` | src/player.rs:333-340 | Performs TakeNext, and reports whether a track was taken. |
| `Player.Player.TrackEnd` | src/player.rs:372-374 | A finished track runs play_next. |
| `Player.Player.Update` | src/player.rs:362-370 | With a current track, its position and capture time are replaced and the state is published once. Without one, nothing happens. |
| `Decimal.Show` | src/guild/message_manager.rs:143-144 | `{}` gives non-empty decimal digits with no leading zero, one digit exactly below 10. |
| `Decimal.ValueShow` | src/guild/message_manager.rs:143-144 | The digits Show writes denote the number. |
| `Decimal.ParseShow` | src/guild/message_manager.rs:143-144 | Reading back what Show wrote gives the number. |
| `Decimal.Parse` | src/guild/message_manager.rs:380-390 | Reference reader with no counterpart in the source, used to state what duration_fmt prints: a string is read as a number exactly when it is non-empty and all digits. |
| `Decimal.ValueLeadingZero` | src/guild/message_manager.rs:385-388 | A zero pad does not change the value. |
| `Decimal.Pad2` | src/guild/message_manager.rs:385-388 | `{:02}` gives at least two digits, exactly two below 100, the plain decimal (Show) from 10 on, and reads back as the number. |
| `Decimal.Split` | src/guild/message_manager.rs:385-388 | Reference splitter with no counterpart in the source, used to read clock text back: cutting at ':' gives at least one field, and no field contains ':'. |
| `Decimal.SplitNoColon` | src/guild/message_manager.rs:385-388 | Of the reference splitter: a string without ':' is a single field. |
| `Decimal.SplitField` | src/guild/message_manager.rs:385-388 | Of the reference splitter: a field followed by ':' splits off first. |
| `MessageManager.Unicode` | src/guild/message_manager.rs:495-508 | An action's emoji is empty exactly for a number above 10. Number(i) is the i-th keycap. |
| `MessageManager.Position` | src/guild/message_manager.rs:541 | `position` finds s exactly when s occurs, at an index holding s, and no earlier index holds s (the first occurrence). |
| `MessageManager.FromUnicode` | src/guild/message_manager.rs:528-549 | The decoder. Its properties are UnicodeFromUnicode (decode then encode), FromUnicodeUnicode (encode then decode) and FromUnicodeAccepts (exactly the twenty emoji decode). |
| `MessageManager.UnicodeFromUnicode` | src/guild/message_manager.rs:526-549 | Any decoded emoji re-encodes to itself, and every decoded action has an emoji. |
| `MessageManager.NamedDecodes` | src/guild/message_manager.rs:530-538 | Each named emoji decodes, through its own match arm, to the non-number action whose emoji it is. |
| `MessageManager.KeycapShape` | src/guild/message_manager.rs:484 | The keycaps 0–9 are three characters starting with their digit. The tenth is U+1F51F. |
| `MessageManager.KeycapsDiffer` | src/guild/message_manager.rs:484 | The eleven keycaps are pairwise different. |
| `MessageManager.KeycapNotNamed` | src/guild/message_manager.rs:484-493 | No keycap equals a named emoji. |
| `MessageManager.NumbersDecode` | src/guild/message_manager.rs:540-546 | Keycap i decodes to position i. |
| `MessageManager.KeycapDecodes` | src/guild/message_manager.rs:529-546 | Keycap i decodes to Number(i): no named arm matches it, and its first position among the keycaps is i. |
| `MessageManager.PositionOfDistinct` | src/guild/message_manager.rs:541 | Among pairwise different strings, the first position of xs[n] is n. |
| `MessageManager.FromUnicodeUnicode` | src/guild/message_manager.rs:495-549 | Every action with an emoji (all actions, and Number(i) with i ≤ 10) round-trips through encode and decode. |
| `MessageManager.FromUnicodeAccepts` | src/guild/message_manager.rs:529-549 | Exactly the twenty emoji constants decode; every other string is rejected. |
| `MessageManager.NoEmojiBeyondTen` | src/guild/message_manager.rs:497 | Number(i) with i > 10 encodes to "", and "" is rejected. |
| `MessageManager.DurationFmt` | src/guild/message_manager.rs:380-390 | The text is exactly 5 characters (mm:ss) iff the duration is under an hour, and never shorter. DurationFmtFields, DurationFmtReadsBack and DurationFmtPadded state its fields, values and padding. |
| `MessageManager.DurationFmtFields` | src/guild/message_manager.rs:380-390 | Cut at ':', the text is the hours field (only when there is at least one hour), then the minutes modulo 60, then the seconds modulo 60, each written as `{:02}`. |
| `MessageManager.DurationFmtReadsBack` | src/guild/message_manager.rs:380-390 | Reading the text back gives the duration's whole seconds (h·3600 + m·60 + s). The text has 2 fields iff there is no hour, and minutes and seconds are each < 60. |
| `MessageManager.DurationFmtPadded` | src/guild/message_manager.rs:385-388 | The minute and second fields are exactly two digits, zero-padded, and the hours field, when present, is `{:02}` of the hours. |
| `MessageManager.NumberRange` | src/guild/message_manager.rs:92-94 | Number(from) … Number(to − 1), ascending. |
| `MessageManager.SearchEmotes` | src/guild/message_manager.rs:91-97 | As written: Number(1) … Number(min(count − 1, 10)), then one Delete. |
| `MessageManager.SearchEmotesIntended` | src/guild/message_manager.rs:91-97 | Corrected: Number(1) … Number(min(count, 10)), then one Delete. |
| `MessageManager.Offered` | src/guild/message_manager.rs:100-101 | The reaction filter. OfferedDecodes states that a passing reaction decodes to an offered emote. |
| `MessageManager.Selection` | src/guild/message_manager.rs:110-116 | Only a decoded Number(i) with 1 ≤ i ≤ count selects, and it selects result i − 1. Anything else, Delete included, selects none. |
| `MessageManager.SearchPick` | src/guild/message_manager.rs:100-122 | A pick is always a valid result index and comes from an offered reaction. SearchPickFirst and SearchPickNoneOffered state which reaction decides. |
| `MessageManager.SearchPickFirst` | src/guild/message_manager.rs:100-124 | The first reaction that passes the filter decides the pick through Selection, whatever follows it. A Delete first ends with no track even if a number follows. |
| `MessageManager.SearchPickNoneOffered` | src/guild/message_manager.rs:100-124 | When no reaction passes the filter, the collector times out and nothing is picked. |
| `MessageManager.OfferedDecodes` | src/guild/message_manager.rs:100-101 | A reaction that passed the filter decodes to one of the offered emotes. |
| `MessageManager.PickIsOffered` | src/guild/message_manager.rs:100-116 | Result i − 1 is picked only if Number(i) was offered. |
| `MessageManager.SearchPickAsWritten` | src/guild/message_manager.rs:91-116 | As written, a pick is below min(count − 1, 10). |
| `MessageManager.LastListedUnselectable` | src/guild/message_manager.rs:91-116 | As written, for 1 ≤ count ≤ 10 the last listed result can never be picked. |
| `MessageManager.SearchPickIntended` | src/guild/message_manager.rs:91-116 | With the corrected emotes, every listed result j is picked by Number(j + 1), and only listed results can be picked. |
| `MessageManager.Truncate` | src/guild/message_manager.rs:139-148 | `{:.*}` keeps the first min(len(s), k) characters. |
| `MessageManager.TitleOrMissing` | src/guild/message_manager.rs:146-149 | The title, or "Missing Name" without metadata. ListingLineShape states its place in a result line. |
| `MessageManager.SearchHeader` | src/guild/message_manager.rs:139 | The header is "[", the query, "] ", the requester name cut to 16 characters, then CR LF; its length is the sum of those. |
| `MessageManager.ListingLine` | src/guild/message_manager.rs:140-151 | A result line is at most 46 characters. |
| `MessageManager.ListingLineShape` | src/guild/message_manager.rs:140-151 | A line is the number i + 1 (which reads back as i + 1), ": ", then the title cut to 40 characters or "Missing Name", then CR LF. |
| `MessageManager.Listing` | src/guild/message_manager.rs:140-151 | n lines take at most 46·n characters. |
| `MessageManager.ListingPrefix` | src/guild/message_manager.rs:140-151 | Lines are only appended, in result order. |
| `MessageManager.ListingStep` | src/guild/message_manager.rs:140-151 | One more result adds exactly its line. |
| `MessageManager.SearchContent` | src/guild/message_manager.rs:138-158 | The content is the header followed by the lines of the first min(len(tracks), 10) results. |
| `MessageManager.ListingNumberMatchesEmote` | src/guild/message_manager.rs:91-151 | The number printed on line i is the number of the corrected emote for result i. |
| `Net.FromPlayback` | src/net.rs:650-658 | parse_mode undoes the conversion. |
| `Net.ModeRoundTrip` | src/net.rs:642-658 | The conversion undoes parse_mode, so the two are inverse. |
| `Net.ParseMode` | src/net.rs:642-648 | The wire mode to the loop mode. FromPlayback and ModeRoundTrip state that it and the reverse conversion are inverse. |
| `Net.ParseTrack` | src/net.rs:620-629 | None exactly when there is no metadata. Otherwise len, pos, title and uri are copied. |
| `Net.ParseCurTrack` | src/net.rs:631-640 | None exactly without metadata. Otherwise len, title and uri are copied, and the position is the captured position plus the time elapsed since capture, or exactly the captured position when the clock reads earlier. |
| `Net.ParseTracks` | src/net.rs:597-608 | The wire list is never longer than the deque. |
| `Net.ParseTracksAppend` | src/net.rs:597-608 | The filter-map works track by track: the wire form of a concatenation is the concatenation of the wire forms. |
| `Net.ParseTracksKeepsAll` | src/net.rs:597-608 | When every track has metadata, the wire list matches the deque one for one and in order. |
| `Net.ParseTracksDropsMissing` | src/net.rs:597-608 | A track without metadata is dropped. |
| `Net.GenPlayerState` | src/net.rs:587-618 | Bot name and avatar come from the user, with the default avatar when none is set. paused is is_paused, and the mode converts back to the playback. The current track is ParseCurTrack of the current one, present iff it exists and has metadata. history and queue are ParseTracks of the history and the playlist, in order, so ParseTracksAppend, ParseTracksKeepsAll and ParseTracksDropsMissing apply to them. |
| `Net.HandleControl` | src/net.rs:189-281 | The result echoes uuid and request. Without a voice state there is no call and the error is "No Bot in Channel"; without a player manager there is no call and the error is "Internal Error". Otherwise the first call is the control's request. Resume and Pause both send PauseResume. Enqueue searches and then enqueues only the first result, or returns the search error. |
| `Net.FirstCall` | src/net.rs:223-270 | The manager call each control makes first. HandleControl states that it is the first call whenever a player manager exists, and ResumeAndPauseBothToggle that Resume and Pause map to the same call. |
| `Net.ResumeAndPauseBothToggle` | src/net.rs:224-233 | Resume and Pause make the same manager calls. |
| `Net.EnqueueTakesFirstResult` | src/net.rs:254-267 | Enqueue hands the player at most one track, the first search result. |
| `Net.PushTrace` | src/net.rs:545-582 | The pusher sends at most one message per notification, and all of them are patches. |
| `Net.PushPatches` | src/net.rs:545-581 | The inner pusher loop sends exactly the patches of PushTrace and ends with its last state. |
| `Net.PushStates` | src/net.rs:536-582 | The messages for one watch are the full first state, then PushTrace's patches, then EmptyState exactly when the watch closed. The final last state is PushTrace's. |
| `Net.ClientFollowsPusher` | src/net.rs:559-581 | If patches apply correctly, a client replaying the sent patches over the first full state holds the pusher's last state. |
| `Net.PusherEndsAtLatest` | src/net.rs:559-581 | When patch generation never fails, the pusher's last state is the wire form of the latest notification. |
| `Net.UnchangedSendsNothing` | src/net.rs:561-563 | Notifications equal to the last state send nothing and keep it. |

## Left out

- **Network and UI.** The TCP/WebSocket server and its framing, OAuth, and Tokio task handling are not modelled. Neither are the `watch` channel itself (modelled as the `published` log), locks, and all Discord UI and HTTP (`MainMessage`, the reaction collector, message deletion). They are I/O and concurrency.
- **External crates.** `Message::generate`, `parse` and `generate_patch` live in the `reciprocity_communication` crate, which is not part of this model. Patch generation is the parameter `diff`; applying a patch is the parameter `apply`, tied to `diff` by a precondition.
- **Lavalink and Songbird.** `Player::new`, `disconnect`, `search` and the node and voice calls are foreign calls. A call's outcome is a parameter. `is_fatal` is a predicate on an abstract error tag; `SongbirdJoin`/`SongbirdLeave` carry no payload.
- **Clocks.** The wall clock is a parameter. `Instant::elapsed` is taken as `now − since`, saturating at 0.
- **Position cast.** `update`'s `position as u64` cast is taken as the identity on a non-negative position.
- **Search-message side effects.** The reaction timeout is modelled as the reaction list ending. In `SearchMessage::search`, a Delete or a timeout both give no track (`MessageError::Timeout`).
- **Code block.** `SearchMessage::content`'s final `MessageBuilder` code-block wrapping is not modelled.
- **Display impls.** The `Display` impls of `PlayState` and `Playback` are not modelled.
- **Error text.** A manager error's `{:?}` text is an opaque string.
- **Player.Player.Enqueue:** the source takes an iterator of tracks, modelled as a finite sequence.
- Net.PushStates: models one watch, from its first full state to its close. The outer `'main` loop around it (src/net.rs:492-535) is not modelled. That covers the initial `PlayerState(None)` sent when the channel has no player yet, the five-second wait for a player, the bot and watch lookups that restart the loop, and the restart after the `EmptyState` close notice. They are retries and waits around the same pusher.

## Findings

| source | as written | input that shows it | evidently intended | confidence | as-written member | corrected member |
|---|---|---|---|---|---|---|
| src/guild/message_manager.rs:91-97 | The search emotes are `(1..tracks.len()).take(10)`, which gives Number(1) … Number(len − 1). Meanwhile `content` lists min(len, 10) results, numbered 1 … min(len, 10). | A search with exactly 1 result lists "1: …" but offers only Delete. With 3 results, result 3 has no emote. | Offer Number(1) … Number(min(len, 10)), one per listed result. | medium, not executed | `MessageManager.LastListedUnselectable` | `MessageManager.SearchPickIntended` |

A second point concerns loop modes: choosing the same loop mode twice does not always end in Normal. From AllLoop, choosing AllLoop twice goes Normal, then back to AllLoop. `Player.ToggledTwice` states the exact law. The code is consistent with its own rule, so this is not listed as a finding.
