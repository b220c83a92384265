# Voice-session commands of the music bot, in Dafny

This project models the part of `musicBot/only_music_bot.py` that makes decisions: the `play`, `stop` and `leave` chat commands of a single guild and the entry selection of `YTDLSource.from_url`.

A guild's session is either not connected, or connected to one voice channel and either idle or playing. The commands change it as follows.

- `play` first checks that the decoder executable exists and that the author is in a voice channel.
- Then it takes the connection step: connect when not connected, move when on another channel, or reuse the connection on the author's channel.
- Then it turns the request away if audio is already playing.
- Otherwise it resolves the query in stream mode and starts playback. On any failure it disconnects.
- `stop` stops the audio.
- `leave` disconnects.

Files:

- `wrappers.dfy`: `Option` and `Result`.
- `resolver.dfy` (module `Resolver`): what `from_url` does with the extraction backend's answer. A multi-entry result is narrowed to its first entry. In stream mode the entry's `url` is what the decoder reads. The title comes from the entry.
- `commands.dfy` (module `Commands`): the session as a value `Voice`, the command inputs, the messages, and one function per command. The function's `ensures` clauses carry the single-call properties.
- `session.dfy` (module `Guild`): class `VoiceSession` with fields `channel` and `playing`. Its methods `Play`, `Stop` and `Leave` update the fields step by step, as the handlers do. Each is proved to produce exactly the state and messages of the matching `Commands` function.
- `traces.dfy` (module `Traces`): runs a sequence of commands for one guild and proves properties of two calls in a row and of any sequence.

Everything the handlers learn from outside is an input of the model:

- whether `ffmpeg.exe` exists;
- the author's voice channel;
- how a `connect(timeout=60.0)` or `move_to` ends: success, the library's client exception, a timeout, or any other exception;
- what the extraction backend returns: an information dictionary, its download error, or any other exception;
- whether the decoder process can be created;
- whether the voice connection accepts the new audio source.

Replies are the enum `Message` rather than their text. The progress messages "connecting", "moving" and "searching" are part of it. This makes "the checks come before any connection work" visible: no `ConnectingTo` or `MovingTo` is sent.

Three facts about the handlers shape the model:

- After a resolve or playback failure, the handler disconnects, also when it reused the connection (lines 141-150). The `if voice_client` guard is always true there.
- The handler has no empty-query check and no connection-in-progress check.
- A successful `move_to` keeps the audio going. A session that was playing elsewhere therefore ends on the author's channel, still playing, and `play` replies "already playing".

## Model

| member | source | states |
|---|---|---|
| Resolver.SelectEntry | musicBot/only_music_bot.py:62-63 | A result with an `entries` key becomes its first entry. An empty entry list is an index error. A result without the key is used unchanged. |
| Resolver.PlayableTarget | musicBot/only_music_bot.py:65 | In stream mode the decoder reads the entry's `url`, and a missing `url` is a key error. Otherwise it reads the file downloaded for the entry. |
| Resolver.FromUrl | musicBot/only_music_bot.py:49-74 | Succeeds exactly when extraction returned data, entry selection and target choice succeed, and the decoder starts. The player's data and title are the selected entry's. In stream mode its target is that entry's `url`. The result is the download error exactly when extraction raised it. |
| Commands.LinkFailureReply | musicBot/only_music_bot.py:111-122 | Each of the three exception handlers of the connection step has its own reply: a timeout, a client exception, or any other error. |
| Commands.Link | musicBot/only_music_bot.py:97-122 | On the author's channel the connection is reused untouched and nothing is sent. Otherwise a connect (when not connected) or a move is announced, that announcement is the only message on success, and the step fails exactly when the gateway does. On success the session is on the author's channel: idle after a connect, with its playing state kept after a move. On failure the error reply follows. |
| Commands.LoadFailureReply | musicBot/only_music_bot.py:141-150 | Only the backend's download error gets the "not found" reply. Every other failure gets the playback-error reply. |
| Commands.Start | musicBot/only_music_bot.py:129-150 | "Searching" is sent first. The session ends playing on the same channel exactly when `from_url` succeeds in stream mode and the source is attached, and then the title is reported. Otherwise it ends disconnected, and the reply is "not found" exactly when the backend raised its download error, a playback error otherwise. |
| Commands.PlayOutcome | musicBot/only_music_bot.py:85-150 | A missing decoder or an author outside voice changes nothing and sends one error, the decoder check first. A failed connect or move changes nothing and ends with its error reply. Already playing after the connection step: the session plays on the author's channel, and the messages are the connection step's followed by "already playing". Once the resolver is reached, the messages are the connection step's followed by those of `Commands.Start`. A track starts exactly when every step succeeds, plays on the author's channel, and its title comes from the resolved entry. Once the resolver is reached, the session ends as `Commands.Start` leaves it, so any failure of `from_url` or of the attach ends disconnected, with "not found" for the download error and a playback error for anything else. The session never ends anywhere but where it was, on the author's channel, or disconnected. The playing-implies-connected invariant is kept. |
| Commands.StopOutcome | musicBot/only_music_bot.py:152-160 | Playing: idle on the same channel, reply "stopped". Idle: reply "nothing playing", unchanged. Not connected: reply "not connected", unchanged. The channel never changes. |
| Commands.LeaveOutcome | musicBot/only_music_bot.py:162-168 | From any connected state, idle or playing, the session ends not connected. From not connected the reply is "not connected" and nothing changes. |
| Guild.VoiceSession.Play | musicBot/only_music_bot.py:85-150 | The in-place handler keeps the invariant and ends with exactly the state and messages of `Commands.PlayOutcome`. |
| Guild.VoiceSession.Stop | musicBot/only_music_bot.py:152-160 | The in-place handler keeps the invariant and ends with exactly the state and message of `Commands.StopOutcome`. |
| Guild.VoiceSession.Leave | musicBot/only_music_bot.py:162-168 | The in-place handler keeps the invariant and ends with exactly the state and message of `Commands.LeaveOutcome`. |
| Traces.Step | musicBot/only_music_bot.py:85-168 | Every command keeps the invariant that a session playing audio is connected. |
| Traces.Run | musicBot/only_music_bot.py:85-168 | Any sequence of commands keeps that invariant. |
| Traces.StopTwice | musicBot/only_music_bot.py:152-160 | On a connected session, two `stop`s in a row leave it idle on its channel, and the second replies "nothing playing". |
| Traces.LeaveTwice | musicBot/only_music_bot.py:162-168 | Two `leave`s in a row end not connected, and the second replies "not connected". |
| Traces.LinkTwice | musicBot/only_music_bot.py:101-109 | After a successful connection step, a second one to the same channel is a silent no-op, whatever the gateway would answer. |
| Traces.StopThenPlay | musicBot/only_music_bot.py:124-156 | After a `stop`, a `play` from the channel the session is on is no longer turned away as busy. It goes on to the resolver. |
| Traces.OnlyPlayConnects | musicBot/only_music_bot.py:152-168 | Without a `play`, no sequence of commands connects, moves or starts audio. The session stays on its channel or ends disconnected, and it plays only if it already did. |
| Traces.DetachedIgnoresStopAndLeave | musicBot/only_music_bot.py:157-168 | A session with no connection answers every `stop` and `leave` with "not connected" and stays unchanged. |
| Traces.EndsDetachedAfterLeave | musicBot/only_music_bot.py:162-168 | Whatever commands come before it, a final `leave` leaves the session not connected. |
| Traces.RejectedPlayIsInvisible | musicBot/only_music_bot.py:88-127 | A `play` that stops before the resolver without moving the connection has no effect on where later commands leave the session. |

## Left out

- The voice library's transport (`connect`, `move_to`, `play`, `stop`, `disconnect`, `is_playing`): their results are inputs, and their effect is the change to `channel` and `playing`.
- The extraction backend and its option dictionary (lines 29-43): extraction is an input outcome, and `download=not stream` only decides what that outcome is.
- `prepare_filename` (line 65, non-stream mode): the target is recorded as "the file downloaded for this entry" without modelling the file-name template. The command always uses stream mode.
- The decoder subprocess, its reconnect flags and the 0.5 volume transform (lines 49, 67-72): a foreign process and floating-point audio scaling. Whether the process starts is an input.
- The event loop and `run_in_executor` (lines 57-61): the model is sequential for one guild.
- The `after=` callback (lines 136-137) only prints. The end of a stream on its own is the library's doing, so in the model `playing` is cleared only by `stop` or `leave`. A `play` reaches the resolver only from an idle session, so it never clears it.
- A connection dropped by the gateway or by a moderator is not modelled. The session changes only through the three commands.
- Failures of sending a chat message, which would raise inside the handlers, are not modelled.
- Startup is I/O and glue: the token check and exit (lines 9-16), the startup decoder warning (lines 18-19), intents, bot construction, `on_ready` logging and `bot.run`.
- The message texts are replaced by the `Message` enum.
- The model's `query` may be empty. The handler never receives an empty one: `url` is a required consume-rest argument (line 86), and the command framework rejects the command when it is missing.
