/**
 * The guild's voice connection as the command handlers change it in place:
 * `play` connects, moves, starts or disconnects, `stop` stops the audio and
 * `leave` disconnects. Each handler is proved to do exactly what the matching
 * function of module Commands says.
 */
module Guild {
  import opened Wrappers
  import Resolver
  import opened Commands

  class VoiceSession {
    /** The channel the guild's voice connection is on, or None when there is no connection. */
    var channel: Option<ChannelId>
    /** Whether the connection is sending audio. */
    var playing: bool

    /** The session as a value. */
    function State(): Voice
      reads this
    {
      Voice(channel, playing)
    }

    ghost predicate Valid()
      reads this
    {
      Commands.Valid(State())
    }

    /** A guild starts without a voice connection. */
    constructor ()
      ensures Valid() && State() == Detached
    {
      channel := None;
      playing := false;
    }

    /** The `play` command: checks, connection step, busy check, then resolve and start or disconnect. */
    method Play(inp: PlayInputs) returns (sent: seq<Message>)
      requires Valid()
      modifies this
      ensures Valid()
      ensures Outcome(State(), sent) == PlayOutcome(old(State()), inp)
    {
      if !inp.decoderPresent {
        return [DecoderMissing];
      }
      if inp.author.None? {
        return [NotInVoiceChannel];
      }
      var target := inp.author.value;
      sent := [];

      // connection step
      if channel.None? {
        sent := sent + [ConnectingTo(target)];
        if inp.link != Established {
          return sent + [LinkFailureReply(inp.link)];
        }
        channel, playing := Some(target), false;
      } else if channel.value != target {
        sent := sent + [MovingTo(target)];
        if inp.link != Established {
          return sent + [LinkFailureReply(inp.link)];
        }
        channel := Some(target);
      }

      if playing {
        return sent + [AlreadyPlaying];
      }

      // resolve in stream mode and attach the source
      sent := sent + [Searching(inp.query)];
      var player := Resolver.FromUrl(inp.extraction, true, inp.decoderStarts);
      if player.Err? {
        sent := sent + [LoadFailureReply(player.error)];
        channel := None;
        return;
      }
      if !inp.attachOk {
        sent := sent + [PlaybackFailed];
        channel := None;
        return;
      }
      playing := true;
      sent := sent + [NowPlaying(player.value.title)];
    }

    /** The `stop` command. */
    method Stop() returns (sent: seq<Message>)
      requires Valid()
      modifies this
      ensures Valid()
      ensures Outcome(State(), sent) == StopOutcome(old(State()))
    {
      if channel.Some? && playing {
        playing := false;
        sent := [Stopped];
      } else if channel.Some? {
        sent := [NothingPlaying];
      } else {
        sent := [NotConnected];
      }
    }

    /** The `leave` command. */
    method Leave() returns (sent: seq<Message>)
      requires Valid()
      modifies this
      ensures Valid()
      ensures Outcome(State(), sent) == LeaveOutcome(old(State()))
    {
      if channel.Some? {
        channel, playing := None, false;
        sent := [Left];
      } else {
        sent := [NotConnected];
      }
    }
  }
}
