/**
 * The client's procedures, step by step as the program runs them, over a
 * `Host` object standing for its surroundings. Each is proved to do exactly
 * what the corresponding function of module Behaviour says.
 */
module Edi {
  import opened Wrappers
  import opened Text
  import opened Conversation
  import opened Behaviour

  /**
   * The process's surroundings: standard input as the reads still to come
   * (lines and ends of input),
   * the outcomes the chat endpoint will produce for the coming requests, and
   * the session file. The ghost logs record every request made, every
   * transcript saved and every notice printed.
   */
  class Host {
    var stdin: seq<Input>
    var outcomes: seq<Outcome>
    var record: Stored
    ghost var requests: seq<Request>
    ghost var saves: seq<Transcript>
    ghost var display: seq<Notice>

    ghost function Snapshot(): World
      reads this
    {
      World(stdin, outcomes, record, requests, saves, display)
    }

    constructor (stdin: seq<Input>, outcomes: seq<Outcome>, record: Stored)
      ensures Snapshot() == World(stdin, outcomes, record, [], [], [])
    {
      this.stdin, this.outcomes, this.record := stdin, outcomes, record;
      requests, saves, display := [], [], [];
    }

    /** `input()`: the next line, or None for the EOFError at an end of
        input. An end of input is used up by the read it ends; once nothing is
        left, every read ends at once and changes nothing. */
    method ReadLine() returns (line: Option<string>)
      modifies this
      ensures old(stdin) == [] ==> line == None && Snapshot() == old(Snapshot())
      ensures old(stdin) != [] ==>
        line == (if old(stdin)[0].Eof? then None else Some(old(stdin)[0].text))
        && Snapshot() == old(Snapshot()).(stdin := old(stdin)[1..])
    {
      if stdin == [] {
        line := None;
      } else {
        match stdin[0] {
          case Eof => line := None;
          case Line(text) => line := Some(text);
        }
        stdin := stdin[1..];
      }
    }

    /** `sys.stdin.read()`: the lines up to the next end of input, joined by
        newlines; that end of input is used up. */
    method ReadAll() returns (text: string)
      modifies this
      ensures text == AllText(old(stdin)) && Snapshot() == old(Snapshot()).(stdin := old(stdin)[AllConsumed(old(stdin))..])
    {
      text := AllText(stdin);
      stdin := stdin[AllConsumed(stdin)..];
    }

    /** `chat`: one request, answered by the next outcome. */
    method Chat(apiKey: string, model: string, messages: Transcript) returns (outcome: Outcome)
      requires outcomes != []
      modifies this
      ensures outcome == old(outcomes)[0]
      ensures Snapshot() == old(Snapshot()).(outcomes := old(outcomes)[1..], requests := old(requests) + [Request(apiKey, model, messages)])
    {
      outcome := outcomes[0];
      outcomes := outcomes[1..];
      requests := requests + [Request(apiKey, model, messages)];
    }

    /** `save_session`: overwrite the session file with the whole transcript. */
    method SaveSession(messages: Transcript)
      modifies this
      ensures Snapshot() == old(Snapshot()).(record := Saved(messages), saves := old(saves) + [messages])
    {
      record := Saved(messages);
      saves := saves + [messages];
    }

    /** `load_session`. */
    method LoadSession() returns (r: Result<Transcript, Crash>)
      ensures r == Behaviour.LoadSession(record)
    {
      r := Behaviour.LoadSession(record);
    }

    /** `print` of a notice. */
    method Show(notice: Notice)
      modifies this
      ensures Snapshot() == old(Snapshot()).(display := old(display) + [notice])
    {
      display := display + [notice];
    }
  }

  /** `get_user_input`: read lines until a blank line or an end of input and
      join the ones read before it with newlines. */
  method GetUserInput(host: Host) returns (text: string)
    modifies host
    ensures text == Collected(old(host.stdin))
    ensures host.Snapshot() == old(host.Snapshot()).(stdin := old(host.stdin)[Consumed(old(host.stdin))..])
  {
    ghost var input := host.stdin;
    var lines: seq<string> := [];
    while true
      invariant |lines| <= |input|
      invariant forall i :: 0 <= i < |lines| ==> input[i].Line? && !IsBlank(input[i].text)
      invariant lines == Texts(input[..|lines|])
      invariant host.Snapshot() == old(host.Snapshot()).(stdin := input[|lines|..])
      decreases |host.stdin|
    {
      var line := host.ReadLine();
      if line.None? {
        break;
      }
      StripEmptyIffBlank(line.value);
      if Strip(line.value) == "" {
        break;
      }
      assert Texts(input[..|lines| + 1]) == lines + [line.value];
      lines := lines + [line.value];
    }
    assert FirstBlank(input) == |lines|;
    text := JoinLines(lines);
  }

  /** `load_messages`: the starting transcript (see Behaviour.Start). */
  method LoadMessages(host: Host, continueSession: bool, omitPrompt: bool) returns (r: Result<Transcript, Crash>)
    modifies host
    ensures match Start(continueSession, omitPrompt, old(host.Snapshot()))
      case Ok(s) => r == Ok(s.messages) && host.Snapshot() == s.world
      case Err(e) => r == Err(e) && host.Snapshot() == old(host.Snapshot()).(stdin := host.stdin)
  {
    var messages: Transcript := [];
    if continueSession {
      var loaded := host.LoadSession();
      if loaded.Err? {
        return Err(loaded.error);
      }
      messages := loaded.value;
    }
    if omitPrompt {
      var text := host.ReadAll();
      var message := Strip(text);
      messages := messages + [Turn(User, message)];
    } else if !continueSession {
      var answer := host.ReadLine();
      if answer.None? {
        return Err(EndOfInput);
      }
      if Lower(Strip(answer.value)) == "y" {
        var loaded := host.LoadSession();
        if loaded.Err? {
          return Err(loaded.error);
        }
        messages := loaded.value;
      }
    }
    return Ok(messages);
  }

  /** The `try` block of the loop: one request, the rendering of its outcome
      and, for a complete response, the assistant turn and the save. */
  method Exchange(host: Host, apiKey: string, model: string, messages: Transcript) returns (updated: Transcript)
    requires host.outcomes != []
    modifies host
    ensures State(updated, host.Snapshot()) == Exchanged(apiKey, model, State(messages, old(host.Snapshot())))
  {
    var outcome := host.Chat(apiKey, model, messages);
    updated := messages;
    match outcome {
      case Failure(e) =>
        host.Show(Error(e));
      case Response(choices) =>
        if choices != [] {
          var printed, content, complete := RenderChoices(choices);
          host.Show(Reply(printed));
          if complete {
            updated := messages + [Turn(Assistant, content)];
            host.SaveSession(updated);
          } else {
            host.Show(Error(MissingMessageError));
          }
        } else {
          host.Show(NoResponse);
        }
    }
  }

  /** `message_loop`: the starting transcript, then rounds of input, request
      and rendering until a blank input, or a single round for piped input. */
  method MessageLoop(host: Host, apiKey: string, model: string, continueSession: bool, omitPrint: bool)
    returns (r: Result<Transcript, Crash>)
    requires |host.outcomes| >= if omitPrint then 1 else |host.stdin|
    modifies host
    ensures match Run(apiKey, model, continueSession, omitPrint, old(host.Snapshot()))
      case Ok(s) => r == Ok(s.messages) && host.Snapshot() == s.world
      case Err(e) => r == Err(e) && host.Snapshot() == old(host.Snapshot()).(stdin := host.stdin)
  {
    var start := LoadMessages(host, continueSession, omitPrint);
    if start.Err? {
      return Err(start.error);
    }
    var messages := start.value;
    ghost var s0 := State(messages, host.Snapshot());
    while true
      invariant omitPrint ==> State(messages, host.Snapshot()) == s0
      invariant !omitPrint ==> |host.stdin| <= |host.outcomes|
      invariant !omitPrint ==> Dialogue(apiKey, model, State(messages, host.Snapshot())) == Dialogue(apiKey, model, s0)
      decreases |host.stdin|
    {
      if !omitPrint {
        ghost var before := State(messages, host.Snapshot());
        var userInput := GetUserInput(host);
        if Strip(userInput) == "" {
          break;
        }
        messages := messages + [Turn(User, userInput)];
        DialogueRound(apiKey, model, before);
      }
      messages := Exchange(host, apiKey, model, messages);
      if omitPrint {
        break;
      }
    }
    return Ok(messages);
  }
}
