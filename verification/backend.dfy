/** The two collaborators the extractor talks to: the chat backend (the
    browser wrapper's `ask`) and the clock (`time.sleep`). */
module Backend {
  import opened Wrappers

  /** The chat session, as an oracle: the replies it will give, in order, and
      the prompts it was asked. Once the replies run out, every further
      question times out. */
  class Chat {
    var pending: seq<string>
    var sent: seq<string>

    constructor (replies: seq<string>)
      ensures pending == replies && sent == []
    {
      pending := replies;
      sent := [];
    }

    /** `chat.ask(prompt)`: the next reply, or None for a timeout. */
    method Ask(prompt: string) returns (reply: Option<string>)
      modifies this
      ensures sent == old(sent) + [prompt]
      ensures old(pending) == [] ==> reply == None && pending == []
      ensures old(pending) != [] ==> reply == Some(old(pending)[0]) && pending == old(pending)[1..]
    {
      sent := sent + [prompt];
      if pending == [] {
        reply := None;
      } else {
        reply := Some(pending[0]);
        pending := pending[1..];
      }
    }
  }

  /** The durations, in seconds, the process has slept. */
  class Clock {
    ghost var slept: seq<nat>

    constructor ()
      ensures slept == []
    {
      slept := [];
    }

    /** `time.sleep(seconds)`. */
    method Sleep(seconds: nat)
      modifies this
      ensures slept == old(slept) + [seconds]
    {
      slept := slept + [seconds];
    }
  }
}
