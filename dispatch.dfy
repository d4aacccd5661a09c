/**
 * The intent dispatcher of the voice assistant: one recognised command is
 * lowered, classified by an ordered cascade of substring tests (the first
 * test that matches wins), handed to one action provider, and answered
 * either with the provider's message or, when no action was taken, with a
 * reply from the language model.
 */
module Dispatch {
  import opened Text
  import P = Providers

  const WebsiteMarkers: seq<string> := ["website", "site", ".com", ".org"]
  const SearchMarkers: seq<string> := ["search", "look up", "google"]
  const PowerMarkers: seq<string> := ["shutdown", "restart", "reboot"]
  const CreateMarkers: seq<string> := ["create file", "make file"]
  const KeystrokeMarkers: seq<string> := ["press", "keystroke"]

  /** What the cascade decides for one command. */
  datatype Intent =
    | Ignore                        // too short: nothing happens at all
    | OpenTarget(target: string)    // find_and_open
    | OpenWebsite(url: string)
    | SearchWeb(query: string)
    | SystemInfo
    | Screenshot
    | ListFiles
    | Volume(action: string)
    | Power(action: string)
    | CreateFile(filename: string)
    | Keystroke(keys: string)
    | Fallback                      // no provider is called: the model answers
    | Crash                         // `split("file ")[1]` raises IndexError
  {
    /** The intents that call an action provider. */
    predicate Acts() {
      !(Ignore? || Fallback? || Crash?)
    }
  }

  // ---------------------------------------------------------------------
  // Sub-action resolvers and argument extraction (all on the lowered command)
  // ---------------------------------------------------------------------

  /** The volume word: "up"/"increase" before "down"/"decrease" before "mute", else "unmute". */
  function VolumeWord(low: string): (a: string)
    ensures a in ["up", "down", "mute", "unmute"]
  {
    if ContainsAny(low, ["up", "increase"]) then "up"
    else if ContainsAny(low, ["down", "decrease"]) then "down"
    else if Contains(low, "mute") then "mute"
    else "unmute"
  }

  /** The power word: "shutdown" before "restart"/"reboot", else "cancel". */
  function PowerWord(low: string): (a: string)
    ensures a in ["shutdown", "restart", "cancel"]
  {
    if Contains(low, "shutdown") then "shutdown"
    else if ContainsAny(low, ["restart", "reboot"]) then "restart"
    else "cancel"
  }

  /** The website branch's URL, before stripping: the segment after "open ", or the whole command. */
  function WebsiteUrl(low: string): (url: string)
    ensures Contains(low, "open ") ==> !Contains(url, "open ")
    ensures !Contains(low, "open ") ==> url == low
  {
    if Contains(low, "open ") then SplitSecond(low, "open ").value else low
  }

  /** The search query, before stripping: "search for " before "search " before "google ". */
  function SearchQuery(low: string): (query: string)
    ensures Contains(low, "search for ") ==> !Contains(query, "search for ")
    ensures !Contains(low, "search ") && !Contains(low, "google ") ==> query == low
  {
    if Contains(low, "search for ") then
      ContainsPrefix(low, "search for ", "search ");
      SplitSecond(low, "search for ").value
    else if Contains(low, "search ") then SplitSecond(low, "search ").value
    else if Contains(low, "google ") then SplitSecond(low, "google ").value
    else low
  }

  /**
   * The name `create_file` receives, or None where `split("file ")[1]`
   * raises. ".txt" is added when the whole command has no '.'.
   */
  function CreateFileName(low: string): (name: Option<string>)
    ensures name.Some? <==> Contains(low, "file ")
    ensures name.Some? && !Contains(low, ".") ==> |name.value| >= 4 && name.value[|name.value| - 4..] == ".txt"
  {
    match SplitSecond(low, "file ")
    case None => None
    case Some(segment) => Some(Strip(segment) + (if Contains(low, ".") then "" else ".txt"))
  }

  /** The chord `send_keystroke` receives: stripped after "press ", the whole command otherwise. */
  function KeystrokeKeys(low: string): (keys: string)
    ensures Contains(low, "press ") ==> Strip(keys) == keys
    ensures !Contains(low, "press ") ==> keys == low
  {
    if Contains(low, "press ") then
      var segment := SplitSecond(low, "press ").value;
      StripIdempotent(segment);
      Strip(segment)
    else low
  }

  // ---------------------------------------------------------------------
  // The cascade
  // ---------------------------------------------------------------------

  /**
   * Every branch before the create-file one fails and a create-file marker
   * occurs: the command reaches `split("file ")[1]`.
   */
  predicate ReachesCreateBranch(low: string) {
    !Contains(low, "open") && !ContainsAny(low, WebsiteMarkers) && !ContainsAny(low, SearchMarkers) &&
    !Contains(low, "system info") && !Contains(low, "screenshot") && !Contains(low, "list files") &&
    !Contains(low, "volume") && !ContainsAny(low, PowerMarkers) && ContainsAny(low, CreateMarkers)
  }

  /** The first-match-wins classification of `process_command`; only short commands are ignored. */
  function Classify(command: string): (intent: Intent)
    ensures intent == Ignore <==> |Strip(command)| < 2
  {
    if |Strip(command)| < 2 then Ignore else ClassifyLowered(Lower(command))
  }

  /**
   * The cascade proper, on the lowered command: only the length test
   * before it ignores a command, and it raises exactly when the create-file
   * branch is reached by a command without "file ".
   */
  function ClassifyLowered(low: string): (intent: Intent)
    ensures intent != Ignore
    ensures intent == Crash <==> ReachesCreateBranch(low) && !Contains(low, "file ")
  {
    if Contains(low, "open") then
      match SplitSecond(low, "open ")
      case Some(segment) => OpenTarget(Strip(segment))
      case None => Fallback
    else if ContainsAny(low, WebsiteMarkers) then OpenWebsite(Strip(WebsiteUrl(low)))
    else if ContainsAny(low, SearchMarkers) then SearchWeb(Strip(SearchQuery(low)))
    else if Contains(low, "system info") then SystemInfo
    else if Contains(low, "screenshot") then Screenshot
    else if Contains(low, "list files") then ListFiles
    else if Contains(low, "volume") then Volume(VolumeWord(low))
    else if ContainsAny(low, PowerMarkers) then Power(PowerWord(low))
    else if ContainsAny(low, CreateMarkers) then
      match CreateFileName(low)
      case Some(name) => CreateFile(name)
      case None => Crash
    else if ContainsAny(low, KeystrokeMarkers) then Keystroke(KeystrokeKeys(low))
    else Fallback
  }

  // ---------------------------------------------------------------------
  // Providers and the reply
  // ---------------------------------------------------------------------

  /**
   * What the world answers during one dispatch. `findAndOpen` is the file
   * search and `generate` the language model, both opaque; the flags say
   * whether each operating-system call completes; the rest is what the
   * providers read.
   */
  datatype Env = Env(
    findAndOpen: string -> P.Outcome,
    generate: string -> string,
    browserOk: bool,
    system: P.SystemFields,
    desktop: string, stamp: string, captureOk: bool,
    cwd: string, listing: P.Listing,
    pressOk: bool,
    spawnOk: bool,
    writeError: Option<string>,
    hotkeyOk: bool)

  /**
   * The provider call for an intent that acts. System information and the
   * file listing always count as an action taken, whatever they report.
   */
  function Perform(intent: Intent, env: Env): (o: P.Outcome)
    requires intent.Acts()
    ensures intent.SystemInfo? || intent.ListFiles? ==> o.ok
    ensures intent.OpenTarget? ==> o == env.findAndOpen(intent.target)
  {
    match intent
    case OpenTarget(t) => env.findAndOpen(t)
    case OpenWebsite(u) => P.OpenWebsite(u, env.browserOk)
    case SearchWeb(q) => P.SearchWeb(q, env.browserOk)
    case SystemInfo => P.Outcome(true, P.GetSystemInfo(env.system))
    case Screenshot => P.TakeScreenshot(env.desktop, env.stamp, env.captureOk)
    case ListFiles => P.Outcome(true, P.ListFiles(env.cwd, env.listing))
    case Volume(a) => P.ControlVolume(a, env.pressOk)
    case Power(a) => P.ShutdownOrRestart(a, env.spawnOk)
    case CreateFile(n) => P.CreateFile(n, env.writeError)
    case Keystroke(k) => P.SendKeystroke(k, env.hotkeyOk)
  }

  /** What one call of `process_command` ends in. */
  datatype Reply =
    | Silent                                  // returned early: nothing spoken
    | Spoken(text: string, actionTaken: bool) // the text handed to speech
    | Crashed                                 // IndexError escapes the call

  /**
   * The reply `process_command` gives, as a function of the command and the
   * world: silent exactly for short commands, and raising exactly for a
   * long enough command that reaches the create-file branch with no "file ".
   */
  function Respond(command: string, env: Env): (reply: Reply)
    ensures reply == Silent <==> |Strip(command)| < 2
    ensures reply == Crashed <==>
              |Strip(command)| >= 2 && ReachesCreateBranch(Lower(command)) && !Contains(Lower(command), "file ")
  {
    Answer(Classify(command), command, env)
  }

  /**
   * The reply once the intent is known: nothing for Ignore, the exception
   * for Crash, and otherwise the provider's message when it reports success
   * or the model's reply to the unlowered command when it does not.
   */
  function Answer(intent: Intent, command: string, env: Env): (reply: Reply)
    ensures reply == Silent <==> intent == Ignore
    ensures reply == Crashed <==> intent == Crash
  {
    if intent == Ignore then Silent
    else if intent == Crash then Crashed
    else if intent == Fallback then Spoken(env.generate(command), false)
    else
      var o := Perform(intent, env);
      if o.ok then Spoken(o.message, true) else Spoken(env.generate(command), false)
  }

  /**
   * The branch chain of `process_command` run step by step on the lowered
   * command: each test in turn, the `split` calls indexed only once the
   * parts are known to number at least two, and Crash where the create-file
   * branch indexes a split that found no "file ".
   */
  method Cascade(low: string) returns (intent: Intent)
    ensures intent == ClassifyLowered(low)
    ensures intent != Ignore
  {
    if Contains(low, "open") {
      var parts := Split(low, "open ");
      if |parts| > 1 {
        intent := OpenTarget(Strip(parts[1]));
      } else {
        intent := Fallback;
      }
    } else if ContainsAny(low, WebsiteMarkers) {
      var url := low;
      if Contains(low, "open ") {
        url := Split(low, "open ")[1];
      }
      intent := OpenWebsite(Strip(url));
    } else if ContainsAny(low, SearchMarkers) {
      intent := SearchWeb(Strip(SearchQuery(low)));
    } else if Contains(low, "system info") {
      intent := SystemInfo;
    } else if Contains(low, "screenshot") {
      intent := Screenshot;
    } else if Contains(low, "list files") {
      intent := ListFiles;
    } else if Contains(low, "volume") {
      intent := Volume(VolumeWord(low));
    } else if ContainsAny(low, PowerMarkers) {
      intent := Power(PowerWord(low));
    } else if ContainsAny(low, CreateMarkers) {
      var parts := Split(low, "file ");
      if |parts| < 2 {
        intent := Crash;
      } else {
        var filename := Strip(parts[1]);
        if !Contains(low, ".") {
          filename := filename + ".txt";
        }
        intent := CreateFile(filename);
      }
    } else if ContainsAny(low, KeystrokeMarkers) {
      intent := Keystroke(KeystrokeKeys(low));
    } else {
      intent := Fallback;
    }
  }

  /**
   * The tail of `process_command` once the cascade has decided: the chosen
   * provider's message and success flag become the response and the action
   * flag, and a false flag then replaces the response by the model's reply
   * to the original, unlowered command.
   */
  method Act(intent: Intent, command: string, env: Env) returns (reply: Reply)
    requires intent != Ignore
    ensures reply == Answer(intent, command, env)
  {
    var response: Option<string> := None;
    var actionTaken := false;
    if intent == Crash {
      return Crashed;
    }
    if intent.Acts() {
      var o := Perform(intent, env);
      response, actionTaken := Some(o.message), o.ok;
    }
    if !actionTaken {
      response := Some(env.generate(command));
    }
    reply := Spoken(response.value, actionTaken);
  }

  /** `process_command`: too-short commands are dropped, the rest lowered, classified and acted on. */
  method ProcessCommand(command: string, env: Env) returns (reply: Reply)
    ensures reply == Respond(command, env)
  {
    if |Strip(command)| < 2 {
      return Silent;
    }
    var low := Lower(command);
    var intent := Cascade(low);
    reply := Act(intent, command, env);
  }
}
