/**
 * The client's conversation logic as functions of the world it runs in:
 * the reads still to come on standard input, the outcomes the endpoint
 * will produce, the session file, and the logs of what was requested,
 * saved and printed.
 * The methods of module Edi are proved to act exactly as these functions
 * say; the lemmas here state what the client promises about them.
 */
module Behaviour {
  import opened Wrappers
  import opened Text
  import opened Conversation

  /** The session file: missing, holding a transcript, or not valid JSON. */
  datatype Stored = Absent | Saved(transcript: Transcript) | Unreadable

  /** The uncaught exceptions that end the process: end of input at the
      "Continue last session?" prompt, and a session file that does not
      decode. */
  datatype Crash = EndOfInput | CorruptSession

  /** `load_session`: an empty transcript when there is no file. */
  function LoadSession(record: Stored): Result<Transcript, Crash> {
    match record
    case Absent => Ok([])
    case Saved(t) => Ok(t)
    case Unreadable => Err(CorruptSession)
  }

  /** Loading gives back what was last saved, including the empty transcript;
      a missing file loads as empty. */
  lemma SessionRoundTrip(t: Transcript)
    ensures LoadSession(Saved(t)) == Ok(t)
    ensures LoadSession(Absent) == LoadSession(Saved([]))
  {
  }

  /**
   * Everything the loop reads and writes besides its transcript: the
   * remaining reads on standard input, the remaining endpoint outcomes (the
   * n-th request gets the n-th), the session file, and the logs of requests
   * made, transcripts saved and notices printed.
   */
  datatype World = World(
    stdin: seq<Input>,
    outcomes: seq<Outcome>,
    record: Stored,
    requests: seq<Request>,
    saves: seq<Transcript>,
    display: seq<Notice>)

  /** The in-memory transcript together with the world. */
  datatype State = State(messages: Transcript, world: World)

  predicate EndsWith(m: Transcript, role: Role) {
    m != [] && m[|m| - 1].role == role
  }

  // ---------------------------------------------------------------------
  // Standard input

  /**
   * One read from standard input: a line (without its newline), or an end of
   * input. On a terminal Ctrl-D ends one read and later reads see new lines,
   * so an end of input may be followed by more items; past the last item
   * every read ends at once.
   */
  datatype Input = Line(text: string) | Eof

  /** The texts of items that are all lines. */
  function Texts(items: seq<Input>): (r: seq<string>)
    requires forall i :: 0 <= i < |items| ==> items[i].Line?
  {
    seq(|items|, i requires 0 <= i < |items| => items[i].text)
  }

  /** The read ends input collection: end of input (the EOFError of
      `input()`), or a line for which `line.strip() == ""`, that is, a line of
      white space only (lemma StripEmptyIffBlank). */
  predicate EndsCollection(item: Input) {
    item.Eof? || IsBlank(item.text)
  }

  // ---------------------------------------------------------------------
  // get_user_input

  /** Position of the first read that ends collection, or the number of
      items when there is none. */
  function FirstBlank(items: seq<Input>): (k: nat)
    ensures k <= |items|
    ensures forall i :: 0 <= i < k ==> items[i].Line? && !IsBlank(items[i].text)
    ensures k < |items| ==> EndsCollection(items[k])
  {
    if items == [] || EndsCollection(items[0]) then 0
    else
      var k := 1 + FirstBlank(items[1..]);
      assert forall i :: 1 <= i < k ==> items[i] == items[1..][i - 1];
      k
  }

  /** The text `get_user_input` returns: the lines before the first blank
      line or end of input, joined by newlines. */
  function Collected(items: seq<Input>): string {
    JoinLines(Texts(items[..FirstBlank(items)]))
  }

  /** How many items `get_user_input` reads: the kept lines, plus the blank
      line or end of input that ended them, if any. */
  function Consumed(items: seq<Input>): (n: nat)
    ensures n <= |items|
  {
    var k := FirstBlank(items);
    if k < |items| then k + 1 else k
  }

  /** The collected text is blank exactly when the first read is a blank line
      or an end of input, or there is nothing left to read. Otherwise at
      least one item was read. */
  lemma CollectedBlankIff(items: seq<Input>)
    ensures Strip(Collected(items)) == "" <==> items == [] || items[0].Eof? || Strip(items[0].text) == ""
    ensures Strip(Collected(items)) != "" ==> Consumed(items) >= 1
  {
    var k := FirstBlank(items);
    if items != [] && items[0].Line? {
      StripEmptyIffBlank(items[0].text);
    }
    if k > 0 {
      JoinNotBlank(Texts(items[..k]));
    }
  }

  /** The collected text holds exactly the lines before the blank line or end
      of input: splitting it at newlines gives them back, and the read that
      ended the input is not among them. */
  lemma CollectedLines(items: seq<Input>)
    requires forall i :: 0 <= i < |items| && items[i].Line? ==> '\n' !in items[i].text
    requires FirstBlank(items) > 0
    ensures SplitLines(Collected(items)) == Texts(items[..FirstBlank(items)])
    ensures forall i :: 0 <= i < FirstBlank(items) ==> items[i].Line? && Strip(items[i].text) != ""
  {
    var k := FirstBlank(items);
    var kept := Texts(items[..k]);
    forall j | 0 <= j < |kept|
      ensures '\n' !in kept[j]
    {
      assert kept[j] == items[j].text;
    }
    SplitJoin(kept);
    forall i | 0 <= i < k ensures Strip(items[i].text) != "" {
      StripEmptyIffBlank(items[i].text);
    }
  }

  // ---------------------------------------------------------------------
  // sys.stdin.read()

  /** Position of the first end of input, or the number of items. */
  function FirstEof(items: seq<Input>): (e: nat)
    ensures e <= |items|
    ensures forall i :: 0 <= i < e ==> items[i].Line?
    ensures e < |items| ==> items[e].Eof?
  {
    if items == [] || items[0].Eof? then 0
    else
      var e := 1 + FirstEof(items[1..]);
      assert forall i :: 1 <= i < e ==> items[i] == items[1..][i - 1];
      e
  }

  /** What `sys.stdin.read()` returns: every line up to the end of input,
      joined by newlines. */
  function AllText(items: seq<Input>): string {
    JoinLines(Texts(items[..FirstEof(items)]))
  }

  /** The items `sys.stdin.read()` consumes: the lines and the end of input. */
  function AllConsumed(items: seq<Input>): (n: nat)
    ensures n <= |items|
  {
    var e := FirstEof(items);
    if e < |items| then e + 1 else e
  }

  // ---------------------------------------------------------------------
  // load_messages

  /**
   * The starting transcript. With `continueSession` the session file is
   * loaded first. When not prompting (input is piped) all of standard input,
   * stripped, becomes one user turn. Otherwise, without `continueSession`, one
   * line is read as the answer to "Continue last session?" and the session is
   * loaded only for a yes.
   */
  function Start(continueSession: bool, omitPrompt: bool, w: World): (r: Result<State, Crash>)
    ensures r.Ok? ==> r.value.world == w.(stdin := r.value.world.stdin)
    ensures r.Ok? ==> |r.value.world.stdin| <= |w.stdin|
  {
    var loaded := if continueSession then LoadSession(w.record) else Ok([]);
    if loaded.Err? then Err(loaded.error)
    else if omitPrompt then
      var message := Strip(AllText(w.stdin));
      Ok(State(loaded.value + [Turn(User, message)], w.(stdin := w.stdin[AllConsumed(w.stdin)..])))
    else if !continueSession then
      if w.stdin == [] || w.stdin[0].Eof? then Err(EndOfInput)
      else
        var rest := w.(stdin := w.stdin[1..]);
        if IsYes(w.stdin[0].text) then
          match LoadSession(w.record)
          case Err(e) => Err(e)
          case Ok(t) => Ok(State(t, rest))
        else Ok(State([], rest))
    else Ok(State(loaded.value, w))
  }

  /** The session the user chose to continue from, if any. */
  function Continued(continueSession: bool, omitPrompt: bool, w: World): bool
  {
    continueSession || (!omitPrompt && w.stdin != [] && w.stdin[0].Line? && IsYes(w.stdin[0].text))
  }

  /**
   * How the starting transcript is chosen: it is the stored session when the
   * flag is given or (interactively, without the flag) the answer is a lone
   * "y" or "Y", and empty otherwise; piped input then adds exactly one user
   * turn holding the stripped input. A corrupt session file is fatal when
   * it is loaded, and so is end of input at the prompt.
   */
  lemma StartTranscript(continueSession: bool, omitPrompt: bool, w: World)
    ensures var noAnswer := !omitPrompt && !continueSession && (w.stdin == [] || w.stdin[0].Eof?);
      noAnswer ==> Start(continueSession, omitPrompt, w) == Err(EndOfInput)
    ensures var noAnswer := !omitPrompt && !continueSession && (w.stdin == [] || w.stdin[0].Eof?);
      noAnswer || (Continued(continueSession, omitPrompt, w) && w.record == Unreadable)
      <==> Start(continueSession, omitPrompt, w).Err?
    ensures Start(continueSession, omitPrompt, w).Ok? ==>
      var s := Start(continueSession, omitPrompt, w).value;
      var base := if Continued(continueSession, omitPrompt, w) then LoadSession(w.record).value else [];
      s.messages == base + (if omitPrompt then [Turn(User, Strip(AllText(w.stdin)))] else []) &&
      s.world.stdin == (if omitPrompt then w.stdin[AllConsumed(w.stdin)..] else if continueSession then w.stdin else w.stdin[1..])
    ensures !omitPrompt && !continueSession && w.stdin != [] && w.stdin[0].Line? ==>
      (Continued(continueSession, omitPrompt, w) <==> Strip(w.stdin[0].text) == "y" || Strip(w.stdin[0].text) == "Y")
  {
    if w.stdin != [] && w.stdin[0].Line? {
      YesAnswers(w.stdin[0].text);
    }
  }

  // ---------------------------------------------------------------------
  // message_loop

  /**
   * The body of the `try` in the loop: send the transcript, print what came
   * back and, for a complete response, append the assistant turn and save the
   * whole transcript.
   */
  function Exchanged(apiKey: string, model: string, s: State): (r: State)
    requires s.world.outcomes != []
  {
    var o := s.world.outcomes[0];
    var w := s.world.(
      outcomes := s.world.outcomes[1..],
      requests := s.world.requests + [Request(apiKey, model, s.messages)],
      display := s.world.display + Notices(o));
    match Answer(o)
    case None => State(s.messages, w)
    case Some(turn) =>
      var m := s.messages + [turn];
      State(m, w.(record := Saved(m), saves := w.saves + [m]))
  }

  /** The interactive loop: collect a text, stop on a blank one, otherwise
      append it as a user turn, exchange, and go round again. There must be
      an outcome for every request; each request uses up at least one read. */
  function Dialogue(apiKey: string, model: string, s: State): State
    requires |s.world.stdin| <= |s.world.outcomes|
    decreases |s.world.stdin|
  {
    var lines := s.world.stdin;
    var text := Collected(lines);
    var w := s.world.(stdin := lines[Consumed(lines)..]);
    if Strip(text) == "" then State(s.messages, w)
    else
      CollectedBlankIff(lines);
      Dialogue(apiKey, model, Exchanged(apiKey, model, State(s.messages + [Turn(User, text)], w)))
  }

  /** The user texts the interactive loop submits, in order. */
  function Inputs(lines: seq<Input>): seq<string>
    decreases |lines|
  {
    var text := Collected(lines);
    if Strip(text) == "" then []
    else
      CollectedBlankIff(lines);
      [text] + Inputs(lines[Consumed(lines)..])
  }

  /** `message_loop`: the starting transcript, then one exchange when input
      is piped, or the interactive loop. */
  function Run(apiKey: string, model: string, continueSession: bool, omitPrint: bool, w: World): Result<State, Crash>
    requires |w.outcomes| >= if omitPrint then 1 else |w.stdin|
  {
    match Start(continueSession, omitPrint, w)
    case Err(e) => Err(e)
    case Ok(s) => if omitPrint then Ok(Exchanged(apiKey, model, s)) else Ok(Dialogue(apiKey, model, s))
  }

  // ---------------------------------------------------------------------
  // What the loop preserves

  /** A transcript that was sent: a prefix of the current one ending with the
      user's turn. */
  predicate SentFrom(m: Transcript, current: Transcript) {
    m <= current && EndsWith(m, User)
  }

  /** A transcript that was saved: a prefix of the current one ending with
      the assistant's turn. */
  predicate SavedFrom(m: Transcript, current: Transcript) {
    m <= current && EndsWith(m, Assistant)
  }

  /**
   * `s` is a later state of a run that was in `s0`: the transcript and every
   * log only grew by appends; every request made since sent a prefix of the
   * current transcript that ends with a user turn; every save since wrote a
   * prefix ending with an assistant turn, at most one per request; and the
   * session file holds the last save, or is untouched when nothing was saved.
   */
  predicate Extends(s0: State, s: State) {
    var w0, w := s0.world, s.world;
    s0.messages <= s.messages
    && w0.requests <= w.requests && w0.saves <= w.saves && w0.display <= w.display
    && |w.saves| - |w0.saves| <= |w.requests| - |w0.requests|
    && (forall i :: |w0.requests| <= i < |w.requests| ==> SentFrom(w.requests[i].messages, s.messages))
    && (forall i :: |w0.saves| <= i < |w.saves| ==> SavedFrom(w.saves[i], s.messages))
    && w.record == (if |w.saves| == |w0.saves| then w0.record else Saved(w.saves[|w.saves| - 1]))
  }

  lemma ExtendsTransitive(s0: State, s1: State, s2: State)
    requires Extends(s0, s1) && Extends(s1, s2)
    ensures Extends(s0, s2)
  {
    var w0, w1, w2 := s0.world, s1.world, s2.world;
    forall i | |w0.requests| <= i < |w2.requests|
      ensures SentFrom(w2.requests[i].messages, s2.messages)
    {
      if i < |w1.requests| {
        assert w2.requests[i] == w1.requests[i];
      }
    }
    forall i | |w0.saves| <= i < |w2.saves|
      ensures SavedFrom(w2.saves[i], s2.messages)
    {
      if i < |w1.saves| {
        assert w2.saves[i] == w1.saves[i];
      }
    }
  }

  /**
   * One exchange, sent with a transcript that ends with the user's turn,
   * makes exactly one request and reads no input. It appends at most one
   * turn, the assistant's, and saves exactly when it does, writing the whole
   * new transcript; on an empty response or a failure the transcript,
   * user turn included, stays as it was and nothing is saved.
   */
  lemma ExchangedExtends(apiKey: string, model: string, s: State)
    requires s.world.outcomes != [] && EndsWith(s.messages, User)
    ensures var r := Exchanged(apiKey, model, s);
      Extends(s, r) && r.world.stdin == s.world.stdin
      && r.world.requests == s.world.requests + [Request(apiKey, model, s.messages)]
      && r.world.outcomes == s.world.outcomes[1..]
      && r.world.display == s.world.display + Notices(s.world.outcomes[0])
      && (Answer(s.world.outcomes[0]).None? <==> r.messages == s.messages)
      && (Answer(s.world.outcomes[0]).None? ==> r.world.saves == s.world.saves && r.world.record == s.world.record)
      && (Answer(s.world.outcomes[0]).Some? ==>
            r.messages == s.messages + [Answer(s.world.outcomes[0]).value]
            && r.world.saves == s.world.saves + [r.messages] && r.world.record == Saved(r.messages))
  {
  }

  /** An exchange makes one request and adds no user turn. */
  lemma ExchangedUsers(apiKey: string, model: string, s: State)
    requires s.world.outcomes != []
    ensures var r := Exchanged(apiKey, model, s);
      |r.world.requests| == |s.world.requests| + 1 && r.world.stdin == s.world.stdin
      && |r.world.outcomes| == |s.world.outcomes| - 1
      && UserContents(r.messages) == UserContents(s.messages)
  {
    var o := s.world.outcomes[0];
    if Answer(o).Some? {
      UserContentsAppend(s.messages, [Answer(o).value]);
    }
  }

  /** The transcript's user contents, in order. */
  function UserContents(m: Transcript): seq<string> {
    if m == [] then []
    else (if m[0].role == User then [m[0].content] else []) + UserContents(m[1..])
  }

  lemma {:induction false} UserContentsAppend(a: Transcript, b: Transcript)
    ensures UserContents(a + b) == UserContents(a) + UserContents(b)
  {
    if a != [] {
      assert (a + b)[0] == a[0];
      assert (a + b)[1..] == a[1..] + b;
      UserContentsAppend(a[1..], b);
    } else {
      assert a + b == b;
    }
  }

  /** The user turn the interactive loop appends for a non-blank text, and
      the state it then exchanges from. */
  function Submitted(s: State): State {
    var lines := s.world.stdin;
    State(s.messages + [Turn(User, Collected(lines))], s.world.(stdin := lines[Consumed(lines)..]))
  }

  /** One round of the interactive loop, for a non-blank text. */
  lemma DialogueRound(apiKey: string, model: string, s: State)
    requires |s.world.stdin| <= |s.world.outcomes|
    requires Strip(Collected(s.world.stdin)) != ""
    ensures |Submitted(s).world.stdin| < |s.world.stdin|
    ensures Dialogue(apiKey, model, s) == Dialogue(apiKey, model, Exchanged(apiKey, model, Submitted(s)))
    ensures Inputs(s.world.stdin) == [Collected(s.world.stdin)] + Inputs(Submitted(s).world.stdin)
    ensures Extends(s, Submitted(s)) && EndsWith(Submitted(s).messages, User)
  {
    CollectedBlankIff(s.world.stdin);
  }

  /** The interactive loop keeps the invariant `Extends`. */
  lemma {:induction false} DialogueExtends(apiKey: string, model: string, s: State)
    requires |s.world.stdin| <= |s.world.outcomes|
    ensures Extends(s, Dialogue(apiKey, model, s))
    decreases |s.world.stdin|
  {
    if Strip(Collected(s.world.stdin)) != "" {
      DialogueRound(apiKey, model, s);
      var s1 := Submitted(s);
      var s2 := Exchanged(apiKey, model, s1);
      ExchangedExtends(apiKey, model, s1);
      DialogueExtends(apiKey, model, s2);
      ExtendsTransitive(s, s1, s2);
      ExtendsTransitive(s, s2, Dialogue(apiKey, model, s2));
    }
  }

  /** The interactive loop makes one request per non-blank text and no
      other, and the user turns it adds are exactly those texts, in order. */
  lemma DialogueInputs(apiKey: string, model: string, s: State)
    requires |s.world.stdin| <= |s.world.outcomes|
    ensures var r := Dialogue(apiKey, model, s);
      |r.world.requests| == |s.world.requests| + |Inputs(s.world.stdin)|
      && UserContents(r.messages) == UserContents(s.messages) + Inputs(s.world.stdin)
  {
    DialogueRequests(apiKey, model, s);
    DialogueUsers(apiKey, model, s);
  }

  lemma {:induction false} DialogueRequests(apiKey: string, model: string, s: State)
    requires |s.world.stdin| <= |s.world.outcomes|
    ensures |Dialogue(apiKey, model, s).world.requests| == |s.world.requests| + |Inputs(s.world.stdin)|
    decreases |s.world.stdin|
  {
    if Strip(Collected(s.world.stdin)) != "" {
      DialogueStep(apiKey, model, s);
      DialogueRequests(apiKey, model, Exchanged(apiKey, model, Submitted(s)));
    }
  }

  lemma {:induction false} DialogueUsers(apiKey: string, model: string, s: State)
    requires |s.world.stdin| <= |s.world.outcomes|
    ensures UserContents(Dialogue(apiKey, model, s).messages) == UserContents(s.messages) + Inputs(s.world.stdin)
    decreases |s.world.stdin|
  {
    if Strip(Collected(s.world.stdin)) != "" {
      DialogueStep(apiKey, model, s);
      DialogueUsers(apiKey, model, Exchanged(apiKey, model, Submitted(s)));
    }
  }

  /** What one round of the interactive loop does to the request count, the
      user contents and the texts still to be submitted. */
  lemma DialogueStep(apiKey: string, model: string, s: State)
    requires |s.world.stdin| <= |s.world.outcomes|
    requires Strip(Collected(s.world.stdin)) != ""
    ensures var s2 := Exchanged(apiKey, model, Submitted(s));
      Dialogue(apiKey, model, s) == Dialogue(apiKey, model, s2)
      && |s2.world.stdin| < |s.world.stdin| && |s2.world.stdin| <= |s2.world.outcomes|
      && Inputs(s.world.stdin) == [Collected(s.world.stdin)] + Inputs(s2.world.stdin)
      && |s2.world.requests| == |s.world.requests| + 1
      && UserContents(s2.messages) == UserContents(s.messages) + [Collected(s.world.stdin)]
  {
    DialogueRound(apiKey, model, s);
    ExchangedUsers(apiKey, model, Submitted(s));
    UserTurnAppended(s.messages, Collected(s.world.stdin));
  }

  lemma UserTurnAppended(m: Transcript, text: string)
    ensures UserContents(m + [Turn(User, text)]) == UserContents(m) + [text]
  {
    UserContentsAppend(m, [Turn(User, text)]);
    assert [Turn(User, text)][1..] == [];
  }

  /** A blank first text (a blank first line or end of input) ends the
      interactive loop before any request, with nothing saved and the
      transcript unchanged. */
  lemma BlankInputStops(apiKey: string, model: string, s: State)
    requires |s.world.stdin| <= |s.world.outcomes|
    requires s.world.stdin == [] || s.world.stdin[0].Eof? || Strip(s.world.stdin[0].text) == ""
    ensures var r := Dialogue(apiKey, model, s);
      r.messages == s.messages && r.world == s.world.(stdin := s.world.stdin[Consumed(s.world.stdin)..])
  {
    CollectedBlankIff(s.world.stdin);
  }

  /**
   * With piped input the run makes exactly one request, carrying the starting
   * transcript and the stripped input as its last user turn, whatever the
   * outcome; it reads standard input up to its first end of input and no
   * further.
   */
  lemma PipedRunsOnce(apiKey: string, model: string, continueSession: bool, w: World)
    requires |w.outcomes| >= 1
    ensures var r := Run(apiKey, model, continueSession, true, w);
      r.Ok? ==>
        var base := if continueSession then LoadSession(w.record).value else [];
        var sent := base + [Turn(User, Strip(AllText(w.stdin)))];
        r.value.world.requests == w.requests + [Request(apiKey, model, sent)]
        && r.value.world.stdin == w.stdin[AllConsumed(w.stdin)..]
        && Extends(State(sent, w), r.value)
  {
    StartTranscript(continueSession, true, w);
    var r := Run(apiKey, model, continueSession, true, w);
    if r.Ok? {
      var s := Start(continueSession, true, w).value;
      ExchangedExtends(apiKey, model, s);
    }
  }

  /**
   * What one whole run promises, from a world with empty logs: every
   * transcript saved ends with the assistant's turn and is a prefix of the
   * final transcript (so of every later one), every transcript sent ends
   * with the user's turn, and the session file ends up holding the last save.
   * Interactively, one request is made per non-blank text read after the
   * start.
   */
  lemma RunPromises(apiKey: string, model: string, continueSession: bool, omitPrint: bool, w: World)
    requires |w.outcomes| >= if omitPrint then 1 else |w.stdin|
    requires w.requests == [] && w.saves == [] && w.display == []
    ensures var r := Run(apiKey, model, continueSession, omitPrint, w);
      r.Ok? ==>
        var f := r.value;
        (forall i :: 0 <= i < |f.world.saves| ==> SavedFrom(f.world.saves[i], f.messages))
        && (forall i :: 0 <= i < |f.world.requests| ==> SentFrom(f.world.requests[i].messages, f.messages))
        && f.world.record == (if f.world.saves == [] then w.record else Saved(f.world.saves[|f.world.saves| - 1]))
        && (omitPrint ==> |f.world.requests| == 1)
        && (!omitPrint ==> |f.world.requests| == |Inputs(Start(continueSession, omitPrint, w).value.world.stdin)|)
  {
    var st := Start(continueSession, omitPrint, w);
    if st.Ok? {
      var s := st.value;
      if omitPrint {
        StartTranscript(continueSession, omitPrint, w);
      }
      RunFrom(apiKey, model, omitPrint, s);
      assert Run(apiKey, model, continueSession, omitPrint, w)
        == Ok(if omitPrint then Exchanged(apiKey, model, s) else Dialogue(apiKey, model, s));
    }
  }

  /** The loop part of a run, from a starting state with empty logs. */
  lemma RunFrom(apiKey: string, model: string, omitPrint: bool, s: State)
    requires |s.world.outcomes| >= if omitPrint then 1 else |s.world.stdin|
    requires omitPrint ==> EndsWith(s.messages, User)
    requires s.world.requests == [] && s.world.saves == []
    ensures var f := if omitPrint then Exchanged(apiKey, model, s) else Dialogue(apiKey, model, s);
      (forall i :: 0 <= i < |f.world.saves| ==> SavedFrom(f.world.saves[i], f.messages))
      && (forall i :: 0 <= i < |f.world.requests| ==> SentFrom(f.world.requests[i].messages, f.messages))
      && f.world.record == (if f.world.saves == [] then s.world.record else Saved(f.world.saves[|f.world.saves| - 1]))
      && (omitPrint ==> |f.world.requests| == 1)
      && (!omitPrint ==> |f.world.requests| == |Inputs(s.world.stdin)|)
  {
    var f := if omitPrint then Exchanged(apiKey, model, s) else Dialogue(apiKey, model, s);
    if omitPrint {
      ExchangedExtends(apiKey, model, s);
    } else {
      DialogueExtends(apiKey, model, s);
      DialogueRequests(apiKey, model, s);
    }
    assert Extends(s, f);
  }

  // ---------------------------------------------------------------------
  // Worked runs

  /** Interactive run, no saved session, answer "n", the user types "Hello"
      and a blank line, the endpoint replies "Hi there": the transcript is
      [user "Hello", assistant "Hi there"] and exactly that is saved. */
  lemma HelloRun(apiKey: string, model: string)
    ensures var w := World([Line("n"), Line("Hello"), Line("")], [Response([Message(Some("Hi there"))]), Failure(""), Failure("")], Absent, [], [], []);
      var expected := [Turn(User, "Hello"), Turn(Assistant, "Hi there")];
      Run(apiKey, model, false, false, w) == Ok(State(expected, World([], [Failure(""), Failure("")], Saved(expected),
        [Request(apiKey, model, [Turn(User, "Hello")])], [expected], [Reply(["Hi there"])])))
  {
    var w := World([Line("n"), Line("Hello"), Line("")], [Response([Message(Some("Hi there"))]), Failure(""), Failure("")], Absent, [], [], []);
    var expected := [Turn(User, "Hello"), Turn(Assistant, "Hi there")];
    var s := State([], w.(stdin := [Line("Hello"), Line("")]));
    HelloStart(w);
    DialogueRound(apiKey, model, s);
    var s1 := Submitted(s);
    assert s1 == State([Turn(User, "Hello")], w.(stdin := []));
    var s2 := Exchanged(apiKey, model, s1);
    HelloExchange(apiKey, model, s1);
    BlankInputStops(apiKey, model, s2);
  }

  lemma HelloStart(w: World)
    requires w.stdin == [Line("n"), Line("Hello"), Line("")] && w.record == Absent
    ensures Start(false, false, w) == Ok(State([], w.(stdin := [Line("Hello"), Line("")])))
    ensures Collected([Line("Hello"), Line("")]) == "Hello" && Consumed([Line("Hello"), Line("")]) == 2
    ensures Strip("Hello") == "Hello"
  {
    assert Strip("n") == "n" by { assert !IsSpace("n"[0]); }
    assert !IsYes("n");
    var lines := [Line("Hello"), Line("")];
    assert w.stdin[1..] == lines;
    assert FirstBlank(lines) == 1 by {
      assert EndsCollection(lines[1]);
      assert !IsBlank("Hello") by { assert !IsSpace("Hello"[0]); }
      assert lines[1..] == [Line("")];
    }
    assert lines[..1] == [Line("Hello")];
    assert Texts(lines[..1]) == ["Hello"];
    assert Strip("Hello") == "Hello" by {
      assert !IsSpace("Hello"[0]);
      assert !IsSpace("Hello"[4]);
    }
  }

  lemma HelloExchange(apiKey: string, model: string, s: State)
    requires s.messages == [Turn(User, "Hello")]
    requires s.world == World([], [Response([Message(Some("Hi there"))]), Failure(""), Failure("")], Absent, [], [], [])
    ensures var expected := [Turn(User, "Hello"), Turn(Assistant, "Hi there")];
      Exchanged(apiKey, model, s) == State(expected, World([], [Failure(""), Failure("")], Saved(expected),
        [Request(apiKey, model, [Turn(User, "Hello")])], [expected], [Reply(["Hi there"])]))
  {
    var cs := [Message(Some("Hi there"))];
    assert RenderableCount(cs) == 1;
    assert Printed(cs) == ["Hi there"] by {
      assert cs[..1] == cs;
    }
    assert Answer(Response(cs)) == Some(Turn(Assistant, "Hi there"));
    assert Notices(Response(cs)) == [Reply(["Hi there"])];
    assert s.world.outcomes[1..] == [Failure(""), Failure("")];
    var expected := [Turn(User, "Hello"), Turn(Assistant, "Hi there")];
    assert s.messages + [Turn(Assistant, "Hi there")] == expected;
    var r := Exchanged(apiKey, model, s);
    assert r.messages == expected;
    assert r.world.requests == [Request(apiKey, model, [Turn(User, "Hello")])];
    assert r.world.saves == [expected];
    assert r.world.display == [Reply(["Hi there"])];
  }

  /** Piped run of "Ping" answered by an HTTP 500 error: one request with the
      single user turn "Ping", the error printed, nothing saved. */
  lemma PingRun(apiKey: string, model: string, error: string)
    ensures var w := World([Line("Ping")], [Failure(error)], Absent, [], [], []);
      Run(apiKey, model, false, true, w) == Ok(State([Turn(User, "Ping")], World([], [], Absent,
        [Request(apiKey, model, [Turn(User, "Ping")])], [], [Error(error)])))
  {
    var w := World([Line("Ping")], [Failure(error)], Absent, [], [], []);
    assert FirstEof(w.stdin) == 1 by { assert w.stdin[1..] == []; }
    assert w.stdin[..1] == w.stdin && Texts(w.stdin) == ["Ping"];
    assert AllText(w.stdin) == "Ping";
    assert AllConsumed(w.stdin) == 1;
    assert Strip("Ping") == "Ping" by {
      assert !IsSpace("Ping"[0]);
      assert !IsSpace("Ping"[3]);
    }
    var loaded: Result<Transcript, Crash> := Ok([]);
    assert Strip(AllText(w.stdin)) == "Ping";
    assert loaded.value + [Turn(User, "Ping")] == [Turn(User, "Ping")];
    assert w.stdin[1..] == [];
    var s := State([Turn(User, "Ping")], w.(stdin := []));
    assert Start(false, true, w) == Ok(s);
    assert Answer(Failure(error)) == None;
    assert Notices(Failure(error)) == [Error(error)];
    assert [Failure(error)][1..] == [];
    assert Exchanged(apiKey, model, s).world.requests == [Request(apiKey, model, [Turn(User, "Ping")])];
    assert Exchanged(apiKey, model, s) == State([Turn(User, "Ping")], World([], [], Absent,
        [Request(apiKey, model, [Turn(User, "Ping")])], [], [Error(error)]));
    assert Run(apiKey, model, false, true, w) == Ok(Exchanged(apiKey, model, s));
  }

  /** A blank first line in interactive mode, with a continued session, ends
      the run with no request at all. */
  lemma BlankRun(apiKey: string, model: string, session: Transcript, outcomes: seq<Outcome>)
    requires |outcomes| >= 2
    ensures var w := World([Line("   "), Line("later")], outcomes, Saved(session), [], [], []);
      Run(apiKey, model, true, false, w) == Ok(State(session, w.(stdin := [Line("later")])))
  {
    var w := World([Line("   "), Line("later")], outcomes, Saved(session), [], [], []);
    assert EndsCollection(w.stdin[0]);
    assert w.stdin[1..] == [Line("later")];
    BlankInputStops(apiKey, model, State(session, w));
  }
  /** Ctrl-D on a terminal ends one text, not the session: after "Hello" and
      an end of input the loop reads "Bye" and submits it too, then stops at
      the blank line. */
  lemma EndOfInputResumes()
    ensures Inputs([Line("Hello"), Eof, Line("Bye"), Line("")]) == ["Hello", "Bye"]
  {
    var items := [Line("Hello"), Eof, Line("Bye"), Line("")];
    var rest := [Line("Bye"), Line("")];
    assert !IsBlank("Hello") by { assert !IsSpace("Hello"[0]); }
    assert !IsBlank("Bye") by { assert !IsSpace("Bye"[0]); }
    assert FirstBlank(items) == 1 by { assert items[1..][0] == Eof; }
    assert Texts(items[..1]) == ["Hello"];
    assert Strip("Hello") == "Hello" by {
      assert !IsSpace("Hello"[0]);
      assert !IsSpace("Hello"[4]);
    }
    assert items[2..] == rest;
    assert FirstBlank(rest) == 1 by { assert rest[1..] == [Line("")]; }
    assert Texts(rest[..1]) == ["Bye"];
    assert Strip("Bye") == "Bye" by {
      assert !IsSpace("Bye"[0]);
      assert !IsSpace("Bye"[2]);
    }
    assert rest[2..] == [];
    assert Inputs([]) == [];
  }
}
