# AI-ECHO command dispatcher, modelled in Dafny

Echo is a voice assistant. Once it hears its wake word, it records a spoken
command. `process_command` in `backend.py` then handles that command:
- Commands that strip to fewer than two characters are dropped.
- Every other command is lowered and run through an ordered cascade of
  substring tests ("open", website markers, search markers, "system info",
  "screenshot", "list files", "volume", power words, "create file"/"make file",
  "press"/"keystroke"). The first test that matches picks one action provider.
- The provider returns a success flag and a message.
- When no provider ran, or the provider failed, the message is replaced by the
  language model's answer to the original command.

This project models that dispatcher, the providers it calls, the wake-word
test and the choice of text-to-speech voice.

The modules are:

- `Text` (`text.dfy`) covers the Python string operations the source relies on:
  - `str.strip` with Python's complete whitespace set, and `str.lower`;
  - `t in s`, `s.split(sep)` and `s.split(sep)[1]` (None where Python raises
    IndexError), with the first occurrence and the segment after it as the
    reference for what `split` cuts;
  - `sep.join`, single-character `replace`, and decimal numerals.
- `Providers` (`providers.dfy`) holds `open_website`, `search_web`,
  `get_system_info`, `take_screenshot`, `list_files`, `control_volume`,
  `shutdown_or_restart`, `create_file` and `send_keystroke`. Each is a function
  of its arguments and of what its operating-system call gives: a flag that
  says whether the call completes, or the value it returns (the platform
  fields, the directory listing or its error, the text of the exception a
  file write raises).
- `Dispatch` (`dispatch.dfy`) holds the cascade (`Classify`, `ClassifyLowered`)
  and the argument extraction for each branch. It also holds the reply
  `process_command` produces (`Respond`), and `ProcessCommand`, an imperative
  method that runs the branch chain step by step (`Cascade`). `Act` then calls
  the chosen provider, records its message and flag in locals, and overwrites
  the message with the model's answer when the flag is false.
- `DispatchFacts` (`dispatch_facts.dfy`) holds what the cascade guarantees:
  which commands reach which provider, and with what argument.
- `Voice` (`voice.dfy`) holds the wake-word predicate and `setup_voice`'s nested
  search for a preferred voice.

The world is a value of type `Env`:
- `find_and_open` and `generate_response` are opaque functions of their
  argument.
- Each OS call has a success flag.
- The strings the providers read are fields: the system fields, the desktop
  path, the timestamp, the working directory and the directory listing.

The reply is a `Reply`:
- `Silent` when the command is dropped.
- `Spoken(text, actionTaken)` for the text handed to `speak_text`.
- `Crashed` when `split("file ")[1]` raises inside the create-file branch. The
  exception escapes `process_command`, and `main` (`backend.py:417-422`)
  catches it, which ends the assistant.

The ".txt" test at `backend.py:311` looks at the whole lowered command, not
at the file name: "ok. create file todo" creates `todo`, not `todo.txt`
(`DispatchFacts.CreateFileDotElsewhere`).

## Model

| member | source | states |
|---|---|---|
| Dispatch.ProcessCommand | backend.py:251-327 | the reply of one call is `Respond(command, env)`: silent below two stripped characters, otherwise the cascade's provider outcome with the fallback rule applied |
| Dispatch.Cascade | backend.py:262-320 | running the branch tests in order, with the splits indexed only after their length checks, yields exactly `ClassifyLowered(low)`; it never yields Ignore |
| Dispatch.Act | backend.py:258-323 | with the provider's message and flag in the locals, and the message overwritten by the model's answer when the flag is false, the reply is `Answer(intent, command, env)` |
| Dispatch.ClassifyLowered | backend.py:262-320 | the cascade alone never ignores a command; it raises exactly when every test before the create-file branch fails, "create file" or "make file" occurs, and "file " does not |
| Dispatch.Classify | backend.py:254-320 | a command is ignored exactly when it strips to fewer than two characters |
| Dispatch.Respond | backend.py:251-327 | the reply is silent exactly for commands that strip to fewer than two characters, and the IndexError escapes exactly for a longer command that reaches the create-file branch without "file " |
| Dispatch.Answer | backend.py:258-326 | nothing is said exactly for an ignored command, and the exception escapes exactly for the crashing create-file branch |
| Dispatch.Perform | backend.py:258-320 | the "open" branch hands its target to `find_and_open` and returns its answer; system information and the file listing always count as an action taken |
| Dispatch.VolumeWord | backend.py:298-300 | the word handed to `control_volume` is always one of up, down, mute, unmute |
| Dispatch.PowerWord | backend.py:305-306 | the word handed to `shutdown_or_restart` is always one of shutdown, restart, cancel |
| Dispatch.WebsiteUrl | backend.py:272 | with "open " the URL is a segment free of "open "; without it, the whole lowered command |
| Dispatch.SearchQuery | backend.py:279-281 | after "search for " the query holds no "search for "; with neither "search " nor "google " the query is the whole command |
| Dispatch.CreateFileName | backend.py:311 | a name exists exactly when "file " occurs; it ends in ".txt" whenever the command has no '.' |
| Dispatch.KeystrokeKeys | backend.py:316 | after "press " the chord is stripped; without it the chord is the whole lowered command |
| DispatchFacts.FallbackRule | backend.py:322-323 | in a spoken reply the action flag is set exactly when a provider ran and succeeded, and then the text is its message; otherwise the text is the model's answer to the unlowered command |
| DispatchFacts.ClassifyIgnoresCase | backend.py:254-257 | lowering the command first changes nothing about which provider runs or with what argument |
| DispatchFacts.OpenTargetExactly | backend.py:262-268 | `find_and_open` is reached exactly when "open " (with the space) occurs; "open" without it ends the cascade in the fallback |
| DispatchFacts.OpenShadowsLaterBranches | backend.py:262-271 | a command with "open" anywhere never reaches the website branch or any later branch |
| DispatchFacts.OpenTargetIsSegment | backend.py:263-265 | the target is the stripped segment after the first "open " (up to the next one, or the end), and holds no "open " |
| DispatchFacts.WebsiteUsesWholeCommand | backend.py:271-273 | the website branch's "open " split can never apply, so the URL is always the whole stripped command |
| DispatchFacts.SearchQueryChoice | backend.py:278-282 | the query is the segment after "search for " when it occurs, else after "search " (which beats "google "), else after "google ", else the whole command (e.g. "look up …") |
| DispatchFacts.VolumeWordPriority | backend.py:297-300 | each of up, down, mute and unmute is chosen exactly under its condition: "up"/"increase" beats "down"/"decrease", which beats "mute", and "unmute" is left when none occurs; a command saying "unmute" resolves to "mute" |
| DispatchFacts.VolumeNeverInvalid | backend.py:297-303 | `control_volume` always accepts the cascade's word, so it succeeds exactly when the key press does and never says "Invalid volume command" |
| DispatchFacts.PowerWordResolution | backend.py:304-306 | inside the power branch the word is "shutdown" exactly when "shutdown" occurs and "restart" otherwise ("reboot" included); "cancel" is never produced |
| DispatchFacts.PowerNeverInvalid | backend.py:304-309 | `shutdown_or_restart` always accepts the branch's word, so only spawning can fail |
| DispatchFacts.CreateFileNaming | backend.py:310-311 | a name exists exactly when "file " occurs; it is the stripped segment after the first "file " (free of "file "), with ".txt" appended exactly when the whole command has no '.' |
| DispatchFacts.CreateFileWithoutName | backend.py:310-311 | saying "create file" or "make files" reaches the create-file branch with no "file " after it, so the command raises |
| DispatchFacts.KeystrokeChord | backend.py:315-316 | without "press " the chord is the whole lowered command, unstripped; with it, the stripped segment after the first "press ", free of "press " |
| DispatchFacts.CreateFileSpoken | backend.py:311 | for "create file NAME", and any command whose text before "file " has no 'f' and no '.', the name the create-file branch computes is NAME, plus ".txt" exactly when NAME has no '.' |
| DispatchFacts.CreateFileDotElsewhere | backend.py:311 | with a '.' before "file " ("ok. create file NAME") the name the create-file branch computes is NAME without ".txt", even when NAME has no '.' |
| DispatchFacts.CreateFileSpokenCreates | backend.py:310-311 | such a command that reaches the create-file branch is classified as creating NAME, plus ".txt" exactly when NAME has no '.' |
| DispatchFacts.CreateFileDotElsewhereCreates | backend.py:310-311 | with a '.' before "file ", such a command that reaches the create-file branch is classified as creating NAME as spoken |
| DispatchFacts.CreateFileShadowed | backend.py:262-310 | the earlier tests also see the spoken name: "create file reboot" is a restart and "create file notes.com" opens a website, so neither creates a file |
| Providers.ControlVolume | backend.py:200-215 | succeeds exactly when the lowered word is in the table and the key press completes; unknown words give "Invalid volume command", failed presses "Couldn't control volume" |
| Providers.VolumeKeyPress | backend.py:204-212 | a key is pressed exactly for the six table words; it is the mute, up or down media key, the mute key pressed once and the others five times |
| Providers.VolumeKeyPressTable | backend.py:204-212 | mute and unmute press the mute key once, up and increase press volume up five times, down and decrease press volume down five times |
| Providers.VolumeKeyMatchesMessage | backend.py:204-212 | the key pressed agrees with the success message: mute key with "Toggled mute", up with "Volume increased", down with "Volume decreased" |
| Providers.ControlVolumeTable | backend.py:204-212 | mute/unmute toggle, up/increase raise, down/decrease lower, with their messages |
| Providers.ControlVolumeIgnoresCase | backend.py:203 | the word's case does not matter |
| Providers.PowerCommandLine | backend.py:221-229 | a shell command is spawned exactly for shutdown, restart and cancel |
| Providers.ShutdownOrRestart | backend.py:217-232 | succeeds exactly when the word is known and spawning completes; unknown words give "Invalid shutdown command" |
| Providers.ShutdownOrRestartTable | backend.py:221-230 | the 60-second shutdown and restart, the abort, their messages, and "reboot" rejected |
| Providers.NormalizeUrl | backend.py:148-149 | the URL handed to the browser always has an http or https scheme; one that had it is unchanged, others get "https://" prefixed |
| Providers.NormalizeUrlIdempotent | backend.py:148-149 | normalising twice is normalising once |
| Providers.OpenWebsite | backend.py:146-154 | success follows the browser; both messages name the normalised URL |
| Providers.SearchUrl | backend.py:158 | the search URL is the Google prefix followed by the query, character by character, with each space turned into '+' and every other character kept |
| Providers.SearchUrlRecoversQuery | backend.py:158 | for a query without '+', turning '+' back into spaces recovers the query from the URL |
| Providers.SearchWeb | backend.py:156-163 | success follows the browser; on success the message repeats the raw query |
| Providers.ScreenshotPath | backend.py:180-181 | the path is the desktop directory, a separator, `echo_screenshot_`, the time stamp and `.png` |
| Providers.ScreenshotPathsDistinct | backend.py:180-181 | the time stamp is recoverable from the path, so different stamps give different files |
| Providers.TakeScreenshot | backend.py:178-187 | success follows the capture; on success the message names the saved path |
| Providers.CreateFile | backend.py:234-241 | succeeds exactly when writing raises nothing; on success the message names the file |
| Providers.HotkeyArgs | backend.py:246 | the chord splits into at least one key, none holding '+' |
| Providers.HotkeyArgsRoundTrip | backend.py:246 | joining the keys with '+' gives the chord back |
| Providers.SendKeystroke | backend.py:243-249 | success follows the hotkey call; on success the message names the chord |
| Providers.GetSystemInfo | backend.py:165-176 | the report opens with the operating system's line, "System: …" |
| Providers.SystemInfoShape | backend.py:165-176 | when no value holds a newline, the report is exactly seven "Key: Value" lines in the dictionary's order |
| Providers.ListFiles | backend.py:189-198 | a failing listing is reported as "Couldn't list files in <dir>: <reason>"; a non-empty listing opens with its first entry, numbered 1 |
| Providers.ListFilesShape | backend.py:189-196 | a non-empty listing gives min(20, n) lines, line i being "i+1. name_i" in listing order |
| Providers.ListFilesEmpty | backend.py:194-195 | an empty directory is reported by name |
| Text.Strip | backend.py:254 | the stripped text has no whitespace at either end and is no longer than the input |
| Text.StripIsInfix | backend.py:254 | what strip keeps is a contiguous piece of the input with only whitespace around it |
| Text.StripIdempotent | backend.py:265 | stripping twice is stripping once |
| Text.StripLower | backend.py:254-257 | lowering commutes with stripping and keeps the stripped length |
| Text.Lower | backend.py:257 | lowering keeps the length and maps each character on its own, leaving no upper-case letter |
| Text.LowerFixedPoint | backend.py:257 | exactly the strings with no upper-case letter are unchanged by lowering |
| Text.IndexOf | backend.py:262 | the first occurrence of a needle, with None exactly when `needle in s` is false |
| Text.Split | backend.py:263 | split yields at least one piece, none holding the separator, and more than one exactly when the separator occurs |
| Text.JoinSplit | backend.py:246 | joining split pieces with the separator gives the string back |
| Text.SplitJoin | backend.py:176 | splitting a join of single-separator-free pieces gives the pieces back |
| Text.SplitSecond | backend.py:272 | `split(sep)[1]` exists exactly when the separator occurs, and holds no separator |
| Text.SplitSecondIsSegment | backend.py:263-265 | `split(sep)[1]` is the segment after the first occurrence: the text up to the second occurrence, or to the end |
| Text.ReplaceCharInverse | backend.py:158 | replacing a character by an absent one is undone by the reverse replacement |
| Text.NatToString | backend.py:196 | the numeral is non-empty, all digits, without a leading zero |
| Text.ParseNatToString | backend.py:196 | reading the numeral back gives the number |
| Voice.IsWake | backend.py:396 | the test for the wake word itself adds nothing: a phrase wakes exactly when its lowered text holds one of the alternatives |
| Voice.WakeIsAlternatives | backend.py:396 | the wake word is one of the alternatives, so a phrase wakes exactly when it holds "echo", "eco" or "ecko" |
| Voice.WakeIgnoresCase | backend.py:394-396 | wake detection does not see case |
| Voice.EcoWakes | backend.py:396 | any phrase with "eco" wakes the assistant, e.g. "economy" |
| Voice.EcoDoesNotSubsumeEcho | backend.py:396 | "echo" and "ecko" hold no "eco", so the other spellings are not redundant |
| Voice.PickIsUnique | backend.py:35-41 | at most one voice is the pick: preference order first, then voice order |
| Voice.SetupVoice | backend.py:28-48 | no voice is chosen exactly when no voice name holds a preferred name (case-insensitively); otherwise the chosen voice is the first match for the earliest matching preference; rate 170 and volume 0.9 are set either way |

## Left out

- Speech recognition, text-to-speech, the beep, the microphone, threading, the
  locks and every `time.sleep` are not modelled. `speak_text` is represented
  by the text in `Spoken`, and `print` output by nothing.
- `listen_continuously`, `get_command`, `wait_for_wake_word`'s audio capture,
  `main`, `initialize_model` and `run_echo.py` are not modelled.
  `wait_for_wake_word` is modelled only through the test on its transcript
  (`Voice.IsWake`).
- `find_and_open` (the file, folder and application search) and
  `generate_response` (the language model) are opaque functions in `Env`.
  Their internals are not modelled.
- Every operating-system call becomes a success flag or a given value: the
  browser, the screenshot capture, the media keys, spawning the shell, file
  writing and its error text, the hotkey, and `os.listdir` with its error text.
- `get_system_info`'s platform strings and numbers are opaque strings. The
  rounding of RAM to two decimals and the float formatting are not modelled.
- The screenshot timestamp is an opaque string. The path separator is fixed to
  the Windows backslash.
- `list_files` is modelled as it is called from `process_command`, with the
  working directory. Its `directory or os.getcwd()` default is not modelled.
- Text.Lower: lowers ASCII letters only. Python's `str.lower` also lowers
  non-ASCII letters, and the model differs from it there in three ways.
  Some non-ASCII letters lower to ASCII ones: the Kelvin sign (U+212A) lowers
  to 'k', so "Keystroke" spelt with it takes the keystroke branch in Python
  but falls back to the language model here. Non-ASCII capitals in a target,
  URL, query, file name or chord reach the providers unlowered. And Python's
  lowering can change the length ('İ' becomes two characters) and lowers a
  final sigma by its context; the model keeps every length.
- Voice.SetupVoice: the speech engine and its properties are the returned
  `Settings` value, not calls on a `pyttsx3` engine.
