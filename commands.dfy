/**
 * The decision logic of the `play`, `stop` and `leave` commands for one guild,
 * as functions from the session before the command and the command's inputs
 * to the session after it and the messages sent to the text channel.
 * Everything the commands learn from outside (the decoder executable, the
 * author's voice state, the voice gateway, the extraction backend) is an input.
 */
module Commands {
  import opened Wrappers
  import Resolver

  /** A voice channel, identified as the chat backend identifies it. */
  type ChannelId = nat

  /** The guild's voice connection: the channel it is connected to, if any, and whether audio is being sent. */
  datatype Voice = Voice(channel: Option<ChannelId>, playing: bool)

  /** No voice connection. */
  const Detached := Voice(None, false)

  /** Audio is only ever sent over a connection. */
  predicate Valid(v: Voice) {
    v.playing ==> v.channel.Some?
  }

  /** How a connect or move request to the voice gateway ended. */
  datatype LinkOutcome =
    | Established   // the request succeeded
    | ClientError   // the library's client exception
    | TimedOut      // the connection attempt timed out
    | OtherError    // any other exception (a permission refusal, a network failure)

  /** What the `play` command finds in its environment. */
  datatype PlayInputs = PlayInputs(
    query: string,                       // the text after the command name
    decoderPresent: bool,                // the decoder executable exists at its configured path
    author: Option<ChannelId>,           // the voice channel the author is in, if any
    link: LinkOutcome,                   // how a connect or move would end, if one is issued
    extraction: Resolver.Extraction,     // what the extraction backend returns for the query
    decoderStarts: bool,                 // the decoder process can be created
    attachOk: bool                       // the voice connection accepts the new audio source
  )

  /** The messages the commands send to the text channel, in place of their text. */
  datatype Message =
    | DecoderMissing
    | NotInVoiceChannel
    | ConnectingTo(channel: ChannelId)
    | MovingTo(channel: ChannelId)
    | LinkClientError
    | LinkTimedOut
    | LinkFailed
    | AlreadyPlaying
    | Searching(query: string)
    | NowPlaying(title: Option<string>)
    | LoadFailed       // the extraction backend's download error
    | PlaybackFailed   // any other failure while resolving or starting playback
    | Stopped
    | NothingPlaying
    | NotConnected
    | Left

  /** The session after a command and the messages the command sent, in order. */
  datatype Outcome = Outcome(after: Voice, sent: seq<Message>)

  /** The end of the connection step: connected (with what was announced so far) or given up. */
  datatype LinkResult = Linked(voice: Voice, notes: seq<Message>) | Unlinked(notes: seq<Message>)

  /** The reply to a failed connect or move, one per exception handler. */
  function LinkFailureReply(link: LinkOutcome): (m: Message)
    requires link != Established
    ensures m in {LinkClientError, LinkTimedOut, LinkFailed}
    ensures (m == LinkTimedOut) <==> link == TimedOut
    ensures (m == LinkClientError) <==> link == ClientError
  {
    match link
    case ClientError => LinkClientError
    case TimedOut => LinkTimedOut
    case OtherError => LinkFailed
  }

  /**
   * The connection step of `play`: connect when there is no connection, move
   * when connected elsewhere, reuse the connection when it is already on the
   * author's channel.
   */
  function Link(v: Voice, target: ChannelId, link: LinkOutcome): (r: LinkResult)
    // reusing a connection on the author's channel touches nothing and says nothing
    ensures v.channel == Some(target) ==> r == Linked(v, [])
    // otherwise a connect or a move is announced first, and it succeeds exactly when the gateway does
    ensures v.channel == None ==> |r.notes| >= 1 && r.notes[0] == ConnectingTo(target)
    ensures v.channel.Some? && v.channel != Some(target) ==> |r.notes| >= 1 && r.notes[0] == MovingTo(target)
    ensures r.Unlinked? <==> v.channel != Some(target) && link != Established
    // on success the session is on the author's channel; a fresh connection is silent, a moved one keeps playing
    ensures r.Linked? ==> r.voice.channel == Some(target)
    ensures r.Linked? && v.channel == None ==> !r.voice.playing
    ensures r.Linked? && v.channel.Some? ==> r.voice.playing == v.playing
    // a successful connect or move sends its announcement and nothing else
    ensures r.Linked? && v.channel != Some(target) ==> |r.notes| == 1
    // on failure the only other message is the error reply
    ensures r.Unlinked? ==> |r.notes| == 2 && r.notes[1] == LinkFailureReply(link)
  {
    match v.channel
    case None =>
      if link == Established then Linked(Voice(Some(target), false), [ConnectingTo(target)])
      else Unlinked([ConnectingTo(target), LinkFailureReply(link)])
    case Some(c) =>
      if c == target then Linked(v, [])
      else if link == Established then Linked(Voice(Some(target), v.playing), [MovingTo(target)])
      else Unlinked([MovingTo(target), LinkFailureReply(link)])
  }

  /** Both checks that `play` makes before any connection work pass. */
  predicate PassesPreChecks(inp: PlayInputs) {
    inp.decoderPresent && inp.author.Some?
  }

  /** The command got past the connection step and past the "already playing" check. */
  predicate ReachesResolver(v: Voice, inp: PlayInputs) {
    && PassesPreChecks(inp)
    && var l := Link(v, inp.author.value, inp.link);
    && l.Linked?
    && !l.voice.playing
  }

  /** The reply when resolving or starting playback fails, one per exception handler. */
  function LoadFailureReply(e: Resolver.LoadError): (m: Message)
    ensures m == LoadFailed <==> e == Resolver.NotFound
    ensures m == LoadFailed || m == PlaybackFailed
  {
    if e == Resolver.NotFound then LoadFailed else PlaybackFailed
  }

  /**
   * Starting playback once connected and idle: resolve in stream mode, attach
   * the source and report its title; on any failure report it and disconnect.
   */
  function Start(linked: Voice, inp: PlayInputs): (r: Outcome)
    requires linked.channel.Some?
    ensures |r.sent| == 2 && r.sent[0] == Searching(inp.query)
    ensures r.after == Voice(linked.channel, true) || r.after == Detached
    ensures r.after.playing <==> Resolver.FromUrl(inp.extraction, true, inp.decoderStarts).Ok? && inp.attachOk
    ensures r.after.playing ==> r.sent[1] == NowPlaying(Resolver.FromUrl(inp.extraction, true, inp.decoderStarts).value.title)
    ensures !r.after.playing ==> r.sent[1] in {LoadFailed, PlaybackFailed}
    // "not found" answers exactly the backend's download error; every other failure is a playback error
    ensures !r.after.playing ==> (r.sent[1] == LoadFailed <==> inp.extraction.DownloadError?)
  {
    match Resolver.FromUrl(inp.extraction, true, inp.decoderStarts)
    case Err(e) => Outcome(Detached, [Searching(inp.query), LoadFailureReply(e)])
    case Ok(player) =>
      if inp.attachOk then Outcome(Voice(linked.channel, true), [Searching(inp.query), NowPlaying(player.title)])
      else Outcome(Detached, [Searching(inp.query), PlaybackFailed])
  }

  /** The `play` command. */
  function PlayOutcome(v: Voice, inp: PlayInputs): (r: Outcome)
    // the session invariant is kept
    ensures Valid(v) ==> Valid(r.after)
    // the checks come first, in this order, and a failed check changes nothing
    ensures !inp.decoderPresent ==> r == Outcome(v, [DecoderMissing])
    ensures inp.decoderPresent && inp.author.None? ==> r == Outcome(v, [NotInVoiceChannel])
    // a failed connect or move ends the command and changes nothing
    ensures PassesPreChecks(inp) && Link(v, inp.author.value, inp.link).Unlinked? ==>
      && r.after == v
      && r.sent == Link(v, inp.author.value, inp.link).notes
      && r.sent[|r.sent| - 1] in {LinkClientError, LinkTimedOut, LinkFailed}
    // already playing once connected: the move (if any) stays, playback goes on, nothing new starts
    ensures PassesPreChecks(inp) && Link(v, inp.author.value, inp.link).Linked? && Link(v, inp.author.value, inp.link).voice.playing ==>
      && r.after == Voice(Some(inp.author.value), true)
      && r.after == Link(v, inp.author.value, inp.link).voice
      && r.sent == Link(v, inp.author.value, inp.link).notes + [AlreadyPlaying]
    // the session only ever ends where it was, on the author's channel, or disconnected
    ensures r.after == v || r.after.channel == None || (inp.author.Some? && r.after.channel == inp.author)
    // a new track starts exactly when every step succeeds, and then plays on the author's channel
    ensures (|r.sent| > 0 && r.sent[|r.sent| - 1].NowPlaying?) <==>
      ReachesResolver(v, inp) && Resolver.FromUrl(inp.extraction, true, inp.decoderStarts).Ok? && inp.attachOk
    ensures |r.sent| > 0 && r.sent[|r.sent| - 1].NowPlaying? ==>
      && r.after == Voice(Some(inp.author.value), true)
      && r.sent[|r.sent| - 1].title == Resolver.FromUrl(inp.extraction, true, inp.decoderStarts).value.data.title
    // once the resolver is reached, any failure leaves the session disconnected, reused connection or not
    ensures ReachesResolver(v, inp) && !r.after.playing ==> r.after == Detached
    ensures ReachesResolver(v, inp) && !(Resolver.FromUrl(inp.extraction, true, inp.decoderStarts).Ok? && inp.attachOk) ==>
      r.after == Detached
    // once the resolver is reached, the session ends as the start leaves it
    ensures ReachesResolver(v, inp) ==> r.after == Start(Link(v, inp.author.value, inp.link).voice, inp).after
    // once the resolver is reached, the connection step's messages are followed by those of the start
    ensures ReachesResolver(v, inp) ==>
      r.sent == Link(v, inp.author.value, inp.link).notes + Start(Link(v, inp.author.value, inp.link).voice, inp).sent
    ensures ReachesResolver(v, inp) && !r.after.playing ==>
      r.sent[|r.sent| - 1] == (if inp.extraction.DownloadError? then LoadFailed else PlaybackFailed)
  {
    if !inp.decoderPresent then Outcome(v, [DecoderMissing])
    else if inp.author.None? then Outcome(v, [NotInVoiceChannel])
    else
      match Link(v, inp.author.value, inp.link)
      case Unlinked(notes) => Outcome(v, notes)
      case Linked(linked, notes) =>
        if linked.playing then Outcome(linked, notes + [AlreadyPlaying])
        else
          var s := Start(linked, inp);
          Outcome(s.after, notes + s.sent)
  }

  /** The `stop` command. */
  function StopOutcome(v: Voice): (r: Outcome)
    ensures Valid(v) ==> Valid(r.after)
    ensures v.channel.Some? && v.playing ==> r == Outcome(Voice(v.channel, false), [Stopped])
    ensures v.channel.Some? && !v.playing ==> r == Outcome(v, [NothingPlaying])
    ensures v.channel.None? ==> r == Outcome(v, [NotConnected])
    ensures r.after.channel == v.channel
    ensures Valid(v) ==> !r.after.playing
  {
    if v.channel.Some? && v.playing then Outcome(Voice(v.channel, false), [Stopped])
    else if v.channel.Some? then Outcome(v, [NothingPlaying])
    else Outcome(v, [NotConnected])
  }

  /** The `leave` command. */
  function LeaveOutcome(v: Voice): (r: Outcome)
    ensures v.channel.Some? ==> r == Outcome(Detached, [Left])
    ensures v.channel.None? ==> r == Outcome(v, [NotConnected])
    ensures Valid(v) ==> r.after == Detached
  {
    if v.channel.Some? then Outcome(Detached, [Left])
    else Outcome(v, [NotConnected])
  }
}
