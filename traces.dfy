/**
 * Commands for one guild arrive one after another. This module runs a
 * sequence of them through the command functions and states what holds of
 * two calls in a row and of any sequence.
 */
module Traces {
  import opened Wrappers
  import opened Commands

  /** One command as the chat framework dispatches it. */
  datatype Command = Play(inp: PlayInputs) | Stop | Leave

  /** Dispatches one command to the function that gives its outcome. */
  function Step(v: Voice, c: Command): (r: Outcome)
    ensures Valid(v) ==> Valid(r.after)
  {
    match c
    case Play(inp) => PlayOutcome(v, inp)
    case Stop => StopOutcome(v)
    case Leave => LeaveOutcome(v)
  }

  /** The session after running `cmds` in order from `v`, and every message they sent. */
  function Run(v: Voice, cmds: seq<Command>): (r: Outcome)
    ensures Valid(v) ==> Valid(r.after)
    decreases |cmds|
  {
    if cmds == [] then Outcome(v, [])
    else
      var first := Step(v, cmds[0]);
      var rest := Run(first.after, cmds[1..]);
      Outcome(rest.after, first.sent + rest.sent)
  }

  /** No command of the sequence is a `play`. */
  predicate NoPlay(cmds: seq<Command>) {
    forall i :: 0 <= i < |cmds| ==> !cmds[i].Play?
  }

  /** A second `stop` right after a first one on a connected session finds nothing playing. */
  lemma StopTwice(v: Voice)
    requires v.channel.Some?
    ensures Run(v, [Stop, Stop]).after == Voice(v.channel, false)
    ensures Run(v, [Stop, Stop]).sent[1] == NothingPlaying
  {
  }

  /** A second `leave` always finds no connection, and leaves the session disconnected. */
  lemma LeaveTwice(v: Voice)
    requires Valid(v)
    ensures Run(v, [Leave, Leave]).after == Detached
    ensures Run(v, [Leave, Leave]).sent[1] == NotConnected
  {
  }

  /** Repeating a successful connection step to the same channel is a no-op the second time. */
  lemma LinkTwice(v: Voice, target: ChannelId, first: LinkOutcome, second: LinkOutcome)
    requires Link(v, target, first).Linked?
    ensures Link(Link(v, target, first).voice, target, second) == Linked(Link(v, target, first).voice, [])
  {
  }

  /**
   * `stop` then `play` from the author's own channel: the play is no longer
   * turned away as busy but goes on to the resolver.
   */
  lemma StopThenPlay(v: Voice, inp: PlayInputs)
    requires Valid(v) && v.channel.Some?
    requires PassesPreChecks(inp) && inp.author == v.channel
    ensures ReachesResolver(StopOutcome(v).after, inp)
    ensures Searching(inp.query) in PlayOutcome(StopOutcome(v).after, inp).sent
  {
  }

  /**
   * Without a `play`, no command connects, moves or starts audio: the session
   * stays on its channel or ends disconnected, and it only plays if it
   * already did.
   */
  lemma {:induction false} OnlyPlayConnects(v: Voice, cmds: seq<Command>)
    requires NoPlay(cmds)
    ensures Run(v, cmds).after.channel == v.channel || Run(v, cmds).after.channel == None
    ensures Run(v, cmds).after.playing ==> v.playing
    decreases |cmds|
  {
    if cmds != [] {
      var first := Step(v, cmds[0]);
      assert NoPlay(cmds[1..]) by {
        forall i | 0 <= i < |cmds[1..]| ensures !cmds[1..][i].Play? {
          assert cmds[1..][i] == cmds[i + 1];
        }
      }
      OnlyPlayConnects(first.after, cmds[1..]);
    }
  }

  /**
   * A session with no connection answers every `stop` and `leave` with
   * "not connected" and stays as it is.
   */
  lemma {:induction false} DetachedIgnoresStopAndLeave(cmds: seq<Command>)
    requires NoPlay(cmds)
    ensures Run(Detached, cmds).after == Detached
    ensures |Run(Detached, cmds).sent| == |cmds|
    ensures forall i :: 0 <= i < |cmds| ==> Run(Detached, cmds).sent[i] == NotConnected
    decreases |cmds|
  {
    if cmds != [] {
      assert !cmds[0].Play?;
      assert NoPlay(cmds[1..]) by {
        forall i | 0 <= i < |cmds[1..]| ensures !cmds[1..][i].Play? {
          assert cmds[1..][i] == cmds[i + 1];
        }
      }
      DetachedIgnoresStopAndLeave(cmds[1..]);
    }
  }

  /**
   * Whatever happens in between, a session that ends a run with a `leave`
   * ends it disconnected.
   */
  lemma {:induction false} EndsDetachedAfterLeave(v: Voice, cmds: seq<Command>)
    requires Valid(v)
    ensures Run(v, cmds + [Leave]).after == Detached
    decreases |cmds|
  {
    if cmds == [] {
      assert [] + [Leave] == [Leave];
      assert [Leave][1..] == [];
    } else {
      assert (cmds + [Leave])[0] == cmds[0];
      assert (cmds + [Leave])[1..] == cmds[1..] + [Leave];
      EndsDetachedAfterLeave(Step(v, cmds[0]).after, cmds[1..]);
    }
  }

  /**
   * A `play` that stops before the resolver (a failed check, a failed
   * connection step, or "already playing" on the channel it was already on)
   * leaves no trace on the session: the commands after it end as if it had
   * not been issued. Only a successful move is kept by a busy session.
   */
  lemma RejectedPlayIsInvisible(v: Voice, inp: PlayInputs, cmds: seq<Command>)
    requires !ReachesResolver(v, inp)
    requires !(PassesPreChecks(inp) && v.channel != inp.author && inp.link == Established)
    ensures Run(v, [Play(inp)] + cmds).after == Run(v, cmds).after
  {
  }
}
