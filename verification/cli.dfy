/**
 * The CF CLI connection the plugin talks to, as a scripted oracle: it answers
 * each command with the next reply of a fixed script and records, in a ghost
 * trace, every command it was asked to run.
 */
module Cli {

  /**
   * What CliCommandWithoutTerminalOutput hands back: the output lines and
   * whether it also returned an error (Go returns both).
   */
  datatype Reply = Reply(lines: seq<string>, failed: bool)

  /** The answer once the script is used up: no lines and no error, like a fake connection left unprogrammed. */
  const Silent := Reply([], false)

  /** The reply to the p-th command issued against script s. */
  function ReplyAt(s: seq<Reply>, p: nat): Reply {
    if p < |s| then s[p] else Silent
  }

  /** The reply to the next command. */
  function Next(s: seq<Reply>): Reply {
    ReplyAt(s, 0)
  }

  /** The script left after n commands. */
  function Drop(s: seq<Reply>, n: nat): (r: seq<Reply>)
    ensures |r| == if n <= |s| then |s| - n else 0
  {
    if n <= |s| then s[n..] else []
  }

  /** Skipping n commands shifts every later reply by n. */
  lemma ReplyAtDrop(s: seq<Reply>, n: nat, p: nat)
    ensures ReplyAt(Drop(s, n), p) == ReplyAt(s, n + p)
  {
  }

  lemma DropDrop(s: seq<Reply>, a: nat, b: nat)
    ensures Drop(Drop(s, a), b) == Drop(s, a + b)
  {
  }

  class Connection {
    /** The replies still to be handed out, in order. */
    var replies: seq<Reply>
    /** Every command issued so far, oldest first. */
    ghost var trace: seq<seq<string>>

    constructor (script: seq<Reply>)
      ensures replies == script && trace == []
    {
      replies := script;
      trace := [];
    }

    /** Runs one CLI command: records it and hands out the next scripted reply. */
    method CliCommandWithoutTerminalOutput(args: seq<string>) returns (r: Reply)
      modifies this
      ensures r == Next(old(replies))
      ensures replies == Drop(old(replies), 1)
      ensures trace == old(trace) + [args]
    {
      r := Next(replies);
      replies := Drop(replies, 1);
      trace := trace + [args];
    }
  }
}
