# edi — a Dafny model of the chat client's conversation logic

`edi.py` is a command-line chat client for the Poe API. It reads multi-line
input, sends the whole conversation to the chat-completions endpoint, prints
the reply, and keeps the conversation in a session file so that a later run can
continue it. This project models the client's conversation-state logic:

- how input lines are collected into one user text;
- how the model menu and the API-key length rule work;
- how the starting transcript is chosen;
- the interaction loop: when user and assistant turns are appended, when the
  transcript is saved, how many requests are made, and when the loop stops.

Everything the program does through the network, the file system, the terminal
or a thread is a source or sink of values here. The class `Edi.Host` stands for
all of it:

- the reads still to come on standard input, each a line or an end of input.
  On a terminal Ctrl-D ends one read and reading goes on after it, so an end
  of input may be followed by more lines;
- the outcomes the endpoint will produce for the coming requests, in order;
- the session file (missing, holding a transcript, or unreadable JSON);
- ghost logs of the requests made, the transcripts saved and the notices printed.

Files:

- `wrappers.dfy`: Option and Result.
- `text.dfy`: Python's `isspace`, `strip`, `lower`, `"\n".join` and `split("\n")`.
- `setup.dfy`: the `MODELS` menu, `get_model` and `get_api_key`.
- `conversation.dfy`: turns, transcripts, endpoint outcomes, and how the
  choices of a response are rendered and turned into an assistant turn.
- `behaviour.dfy`: the whole run as functions of a `World` value
  (`Start`, `Exchanged`, `Dialogue`, `Run`), the invariant `Extends` that the loop
  keeps, and the lemmas about them.
- `edi.dfy`: the `Host` class and the procedures `GetUserInput`, `LoadMessages`,
  `Exchange` and `MessageLoop`, written as loops over the host. Each is proved
  equal to its function in `behaviour.dfy`.

Some of the program's behaviour is easy to misread. The model keeps these
behaviours of the code:

- A session file that is not valid JSON makes `json.load` raise outside any
  `try`, so the program ends (`Crash.CorruptSession`). It is not treated as an
  empty session.
- End of input at the "Continue last session?" prompt is an uncaught `EOFError`
  (`Crash.EndOfInput`).
- The assistant turn holds only the LAST choice's content. The content of every
  choice is printed, but the contents are not concatenated.
- A failed or empty exchange leaves its user turn in the in-memory transcript.
  The next request then carries two user turns in a row, so transcripts need not
  alternate between user and assistant.
- A choice without a `"message"` key raises `KeyError` inside the `try`. The
  contents printed before it stay on screen, the error is reported, and nothing
  is appended or saved.
- Piped input that strips to `""` is still sent as a user turn.
- An end of input in the middle of typing ends that text only. The text read
  so far is sent, and the next `get_user_input` reads on.
- The session is saved only after a response with at least one choice. It is
  not saved after an empty response.

## Model

| member | source | states |
|---|---|---|
| Text.TrimStartSuffix | edi.py:75 | `lstrip` keeps a suffix, removes only white space, and what remains does not start with white space |
| Text.TrimEndPrefix | edi.py:75 | `rstrip` keeps a prefix, removes only white space, and what remains does not end with white space |
| Text.StripKeepsMiddle | edi.py:164 | `strip` keeps one contiguous run of the string, with only white space around it, and the run neither starts nor ends with white space |
| Text.StripEmptyIffBlank | edi.py:75 | `s.strip() == ""` exactly when every character of `s` is white space |
| Text.Lower | edi.py:171 | `lower` keeps the length and maps each character through the ASCII case map |
| Text.YesAnswers | edi.py:171-172 | the answer counts as yes exactly when it strips to a lone "y" or "Y" |
| Text.SplitJoin | edi.py:78 | lines without newlines are recovered by splitting their `"\n".join`, so joining loses nothing |
| Text.JoinNotBlank | edi.py:78 | joining lines whose first line is not blank gives text that does not strip to "" |
| Setup.MenuListsEachModelOnce | edi.py:96-98 | the printed menu offers every model, numbers its lines 1 to 9, and shows no number and no model twice |
| Setup.GetModel | edi.py:100-104 | the selection is always one of the models: model n-1 for a number 1..9, and the first model for any other integer |
| Setup.MenuSelects | edi.py:97-102 | typing the number printed next to a model selects that model |
| Setup.SelectionUnique | edi.py:15-25 | a model other than the default is selected by exactly one number |
| Setup.GetApiKey | edi.py:81-91 | returns the first entry of exactly 43 characters, after rejecting every earlier entry; when no entry has that length, returns nothing after reading them all |
| Conversation.RenderableCount | edi.py:211-212 | counts the leading choices that have a message; the next choice, if there is one, has none |
| Conversation.RenderChoices | edi.py:209-216 | prints the content of each choice until one lacks a message; completes exactly when all have one, and then keeps the last choice's content |
| Conversation.AnswerRules | edi.py:208-219 | one assistant turn arises exactly from a non-empty response whose choices all have a message; it holds the last choice's content ("" when absent), and every choice's content is printed; otherwise the last thing printed is the no-response or an error notice |
| Behaviour.SessionRoundTrip | edi.py:52-63 | loading returns the last saved transcript, including the empty one; a missing file loads as empty |
| Behaviour.FirstBlank | edi.py:70-77 | gives the position of the first read that is an all-white-space line or an end of input, or the number of reads when there is none; every read before it is a non-blank line |
| Behaviour.CollectedBlankIff | edi.py:188-191 | the collected text strips to "" exactly when the first read is a blank line or an end of input, or nothing is left to read; otherwise at least one read is used up |
| Behaviour.CollectedLines | edi.py:69-78 | splitting the collected text at newlines gives back exactly the lines before the first blank line or end of input; every one of them is a non-blank line |
| Behaviour.Start | edi.py:150-175 | choosing the starting transcript changes nothing in the world except reading standard input |
| Behaviour.StartTranscript | edi.py:155-175 | the start is the stored session when `--continue` is given or the interactive answer is yes, and empty otherwise; piped input adds exactly one user turn with the stripped input; a corrupt session is fatal when loaded, and so is end of input at the prompt |
| Behaviour.ExchangedExtends | edi.py:203-227 | an exchange makes exactly one request with the current transcript, reads no input and prints the outcome's notices; when the outcome gives no assistant turn (failure, empty response, missing message) the transcript, the saves and the session file stay as they were, and when it gives one, exactly that turn is appended and the whole new transcript is saved to the session file |
| Behaviour.ExchangedUsers | edi.py:203-216 | an exchange uses one outcome and adds no user turn |
| Behaviour.DialogueRound | edi.py:187-192 | a non-blank text uses up at least one read, is appended as a user turn, and the loop continues from the exchange that follows |
| Behaviour.DialogueExtends | edi.py:187-227 | the interactive loop keeps the invariant: the transcript only grows by appends; every request sent a prefix ending with a user turn; every save wrote a prefix ending with an assistant turn, at most one save per request; the session file holds the last save |
| Behaviour.DialogueInputs | edi.py:187-204 | the interactive loop makes one request per non-blank text and no other; the user turns it adds are exactly those texts, in order |
| Behaviour.BlankInputStops | edi.py:188-191 | a blank first line, an end of input, or no input left ends the loop before any request, with the transcript and session unchanged |
| Behaviour.PipedRunsOnce | edi.py:220-227 | with piped input the run makes exactly one request, carrying the start plus the stripped input as its last user turn, whatever the outcome, and reads input only up to its first end |
| Behaviour.RunPromises | edi.py:178-227 | over a whole run, every saved transcript ends with an assistant turn and is a prefix of the final one; every sent transcript ends with a user turn; the session file holds the last save; piped runs make one request, and interactive runs make one per non-blank text |
| Behaviour.HelloRun | edi.py:185-217 | with no session, answer "n", input "Hello" and the reply "Hi there", the transcript [user "Hello", assistant "Hi there"] is the one saved |
| Behaviour.PingRun | edi.py:161-227 | piped "Ping" answered by an error: one request with the single user turn "Ping", the error printed, nothing saved |
| Behaviour.BlankRun | edi.py:185-191 | a continued session whose first input line is blank ends with no request and the stored transcript in memory |
| Behaviour.EndOfInputResumes | edi.py:70-74 | Ctrl-D after "Hello" ends that text only: the loop then reads and submits "Bye" and stops at the blank line |
| Edi.Host.ReadLine | edi.py:72-74 | `input()` yields the next line and uses it up; an end of input raises EOFError and is used up, so later reads go on; with nothing left every read ends at once |
| Edi.Host.ReadAll | edi.py:164 | `sys.stdin.read()` yields the lines up to the next end of input, joined by newlines, and uses them and that end up |
| Edi.Host.Chat | edi.py:124-147 | a call of `chat` is logged with its key, model and transcript, and is answered by the next outcome |
| Edi.Host.SaveSession | edi.py:52-55 | saving overwrites the session file with the whole transcript and logs the save |
| Edi.Host.LoadSession | edi.py:58-63 | loading gives the stored transcript, an empty one when there is no file, and fails on an unreadable file |
| Edi.Host.Show | edi.py:209-225 | printing a notice appends it to the display log and changes nothing else |
| Edi.GetUserInput | edi.py:66-78 | the loop returns the lines before the first blank line or end of input, joined by newlines, and uses up those lines plus the blank line or end of input that stopped it |
| Edi.LoadMessages | edi.py:150-175 | the steps produce exactly the starting transcript and input consumption of `Behaviour.Start` |
| Edi.Exchange | edi.py:203-227 | one request, its rendering, and the append and save of a complete response, exactly as `Behaviour.Exchanged` |
| Edi.MessageLoop | edi.py:178-227 | the loop ends, and its transcript and world are exactly those of `Behaviour.Run`: a single exchange when piped, and the interactive dialogue otherwise; a crash at the start changes nothing but standard input |

## Left out

- `chat`'s HTTPS connection, headers and JSON encoding and decoding (edi.py:124-147): the endpoint is an oracle of outcomes, one per request. A non-200 status, a transport error and an undecodable body all become `Failure`. A missing `choices` key is an empty `Response`.
- A `"content"` that is JSON `null` (Python would print and store `None`): content is a string or absent.
- `load_config`, `save_config` and `main` (edi.py:33-49, 230-267): argument parsing, `isatty` and the banner are glue. `continue_session` and `omit_print` are parameters.
- The file paths and the JSON encoding of the session file. An I/O error inside `save_session` is not modelled.
- `show_loading_dots` and its thread, flag and `join` (edi.py:107-121, 197-206, 223-224): concurrency and `time.sleep` only drive a terminal spinner.
- The prompts, the banner and the echo of piped input: only the notices after each request are logged.
- `getpass` masking, and the `ValueError` that `int()` raises on a non-integer menu entry, which the source does not handle.
- Setup.GetApiKey: the source prompts forever until a key of length 43 arrives. The model reads a finite list of entries and returns nothing when they run out.
- Text.Lower: only ASCII letters are lowered. No other code point lowercases to "y", so the yes-test of edi.py:171-172 is unaffected.
- Edi.Host.ReadAll: piped input is the lines joined by newlines, without a final newline. After `strip` this is the same text. Input after the first end of input is left unread, as `read()` leaves it.
- Edi.MessageLoop: the outcome oracle must hold at least one outcome per input read (one for piped input). Every request uses up at least one read, so this bounds the number of requests.
- Ctrl-C (`KeyboardInterrupt`) and other signals.
