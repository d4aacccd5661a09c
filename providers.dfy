/**
 * The action providers the dispatcher calls: volume and power word tables,
 * URL building for the browser, file creation, key chords, the screenshot
 * path and the two text reports (system information and directory listing).
 *
 * The providers that report success return an `Outcome`, the
 * `(success, message)` pair of the source; system information and the
 * directory listing return their text alone. The operating-system call
 * inside each provider is not modelled: it becomes a parameter, either a
 * flag that says whether the call completes or the value the call returns
 * (a directory listing or its error, platform values, a clock stamp, the
 * text of the exception a file write raises).
 */
module Providers {
  import opened Text

  datatype Outcome = Outcome(ok: bool, message: string)

  // ---------------------------------------------------------------------
  // control_volume
  // ---------------------------------------------------------------------

  const VolumeWords: seq<string> := ["mute", "unmute", "up", "increase", "down", "decrease"]

  /**
   * `control_volume(action)`: the word is lowered, then looked up. `pressOk`
   * says whether the media-key press completes; an unknown word never
   * reaches the key press.
   */
  function ControlVolume(action: string, pressOk: bool): (r: Outcome)
    ensures r.ok <==> pressOk && Lower(action) in VolumeWords
    ensures Lower(action) !in VolumeWords ==> r == Outcome(false, "Invalid volume command")
    ensures Lower(action) in VolumeWords && !pressOk ==> r == Outcome(false, "Couldn't control volume")
  {
    var a := Lower(action);
    if a in ["mute", "unmute"] then
      if pressOk then Outcome(true, "Toggled mute") else Outcome(false, "Couldn't control volume")
    else if a in ["up", "increase"] then
      if pressOk then Outcome(true, "Volume increased") else Outcome(false, "Couldn't control volume")
    else if a in ["down", "decrease"] then
      if pressOk then Outcome(true, "Volume decreased") else Outcome(false, "Couldn't control volume")
    else
      Outcome(false, "Invalid volume command")
  }

  /** The key `pyautogui.press` receives for a volume word, and how many presses. */
  function VolumeKeyPress(action: string): (r: Option<(string, nat)>)
    ensures r.Some? <==> Lower(action) in VolumeWords
    ensures r.Some? ==> r.value.0 in ["volumemute", "volumeup", "volumedown"]
    ensures r.Some? ==> r.value.1 == (if r.value.0 == "volumemute" then 1 else 5)
  {
    var a := Lower(action);
    if a in ["mute", "unmute"] then Some(("volumemute", 1))
    else if a in ["up", "increase"] then Some(("volumeup", 5))
    else if a in ["down", "decrease"] then Some(("volumedown", 5))
    else None
  }

  /** The six volume words are already lower case. */
  lemma VolumeWordsLowered()
    ensures Lower("mute") == "mute" && Lower("unmute") == "unmute"
    ensures Lower("up") == "up" && Lower("increase") == "increase"
    ensures Lower("down") == "down" && Lower("decrease") == "decrease"
  {
    LowerFixedPoint("mute");
    LowerFixedPoint("unmute");
    LowerFixedPoint("up");
    LowerFixedPoint("increase");
    LowerFixedPoint("down");
    LowerFixedPoint("decrease");
  }

  /**
   * The word table: "mute" and "unmute" both toggle, "increase" is "up",
   * "decrease" is "down".
   */
  lemma ControlVolumeTable()
    ensures ControlVolume("mute", true) == ControlVolume("unmute", true) == Outcome(true, "Toggled mute")
    ensures ControlVolume("up", true) == ControlVolume("increase", true) == Outcome(true, "Volume increased")
    ensures ControlVolume("down", true) == ControlVolume("decrease", true) == Outcome(true, "Volume decreased")
  {
    VolumeWordsLowered();
  }

  /** The key table: one press of the mute toggle, five presses of volume up or down. */
  lemma VolumeKeyPressTable()
    ensures VolumeKeyPress("mute") == VolumeKeyPress("unmute") == Some(("volumemute", 1))
    ensures VolumeKeyPress("up") == VolumeKeyPress("increase") == Some(("volumeup", 5))
    ensures VolumeKeyPress("down") == VolumeKeyPress("decrease") == Some(("volumedown", 5))
  {
    VolumeWordsLowered();
  }

  /** The key that is pressed agrees with what the message reports. */
  lemma VolumeKeyMatchesMessage(action: string)
    ensures VolumeKeyPress(action) == Some(("volumemute", 1)) <==> ControlVolume(action, true).message == "Toggled mute"
    ensures VolumeKeyPress(action) == Some(("volumeup", 5)) <==> ControlVolume(action, true).message == "Volume increased"
    ensures VolumeKeyPress(action) == Some(("volumedown", 5)) <==> ControlVolume(action, true).message == "Volume decreased"
  {
  }

  /** The volume word's case does not matter. */
  lemma ControlVolumeIgnoresCase(action: string, pressOk: bool)
    ensures ControlVolume(Lower(action), pressOk) == ControlVolume(action, pressOk)
  {
    LowerIdempotent(action);
  }

  // ---------------------------------------------------------------------
  // shutdown_or_restart
  // ---------------------------------------------------------------------

  /** The shell command spawned for a power word, if the word is known. */
  function PowerCommandLine(action: string): (r: Option<string>)
    ensures r.Some? <==> Lower(action) in ["shutdown", "restart", "cancel"]
  {
    var a := Lower(action);
    if a == "shutdown" then Some("shutdown /s /t 60")
    else if a == "restart" then Some("shutdown /r /t 60")
    else if a == "cancel" then Some("shutdown /a")
    else None
  }

  /**
   * `shutdown_or_restart(action)`: `spawnOk` says whether spawning the shell
   * command completes. It succeeds exactly when a command line is spawned.
   */
  function ShutdownOrRestart(action: string, spawnOk: bool): (r: Outcome)
    ensures r.ok <==> spawnOk && PowerCommandLine(action).Some?
    ensures PowerCommandLine(action).None? ==> r == Outcome(false, "Invalid shutdown command")
  {
    var a := Lower(action);
    if a == "shutdown" then
      if spawnOk then Outcome(true, "Shutting down in 1 minute") else Outcome(false, "Couldn't control shutdown/restart")
    else if a == "restart" then
      if spawnOk then Outcome(true, "Restarting in 1 minute") else Outcome(false, "Couldn't control shutdown/restart")
    else if a == "cancel" then
      if spawnOk then Outcome(true, "Canceled shutdown/restart") else Outcome(false, "Couldn't control shutdown/restart")
    else
      Outcome(false, "Invalid shutdown command")
  }

  /** The power table: shutdown and restart are delayed by 60 seconds, cancel aborts. */
  lemma ShutdownOrRestartTable()
    ensures ShutdownOrRestart("shutdown", true) == Outcome(true, "Shutting down in 1 minute")
    ensures PowerCommandLine("shutdown") == Some("shutdown /s /t 60")
    ensures ShutdownOrRestart("restart", true) == Outcome(true, "Restarting in 1 minute")
    ensures PowerCommandLine("restart") == Some("shutdown /r /t 60")
    ensures ShutdownOrRestart("cancel", true) == Outcome(true, "Canceled shutdown/restart")
    ensures PowerCommandLine("cancel") == Some("shutdown /a")
    ensures ShutdownOrRestart("reboot", true) == Outcome(false, "Invalid shutdown command")
  {
    assert Lower("shutdown") == "shutdown" by { LowerFixedPoint("shutdown"); }
    assert Lower("restart") == "restart" by { LowerFixedPoint("restart"); }
    assert Lower("cancel") == "cancel" by { LowerFixedPoint("cancel"); }
    assert Lower("reboot") == "reboot" by { LowerFixedPoint("reboot"); }
  }

  // ---------------------------------------------------------------------
  // open_website and search_web
  // ---------------------------------------------------------------------

  predicate HasScheme(url: string) {
    "http://" <= url || "https://" <= url
  }

  /** The URL `open_website` hands to the browser. */
  function NormalizeUrl(url: string): (r: string)
    ensures HasScheme(r)
    ensures HasScheme(url) ==> r == url
    ensures !HasScheme(url) ==> r == "https://" + url
  {
    if HasScheme(url) then url else "https://" + url
  }

  /** Normalising an already normalised URL changes nothing. */
  lemma NormalizeUrlIdempotent(url: string)
    ensures NormalizeUrl(NormalizeUrl(url)) == NormalizeUrl(url)
  {
  }

  /** `open_website(url)`: `browserOk` says whether the browser call completes. */
  function OpenWebsite(url: string, browserOk: bool): (r: Outcome)
    ensures r.ok == browserOk
    ensures r.message == (if browserOk then "Opening " else "Couldn't open ") + NormalizeUrl(url)
  {
    var u := NormalizeUrl(url);
    if browserOk then Outcome(true, "Opening " + u) else Outcome(false, "Couldn't open " + u)
  }

  const SearchPrefix: string := "https://www.google.com/search?q="

  /** The URL `search_web` opens: the query with every space turned into '+'. */
  function SearchUrl(query: string): (r: string)
    ensures SearchPrefix <= r && |r| == |SearchPrefix| + |query|
    ensures forall k :: |SearchPrefix| <= k < |r| ==> r[k] != ' '
    ensures forall k :: 0 <= k < |query| ==> r[|SearchPrefix| + k] == (if query[k] == ' ' then '+' else query[k])
  {
    SearchPrefix + ReplaceChar(query, ' ', '+')
  }

  /** A query without '+' can be read back from its search URL. */
  lemma SearchUrlRecoversQuery(query: string)
    requires forall k :: 0 <= k < |query| ==> query[k] != '+'
    ensures ReplaceChar(SearchUrl(query)[|SearchPrefix|..], '+', ' ') == query
  {
    assert SearchUrl(query)[|SearchPrefix|..] == ReplaceChar(query, ' ', '+');
    ReplaceCharInverse(query, ' ', '+');
  }

  /** `search_web(query)`: the message names the query, not the URL. */
  function SearchWeb(query: string, browserOk: bool): (r: Outcome)
    ensures r.ok == browserOk
    ensures browserOk ==> r.message == "Searching for " + query
  {
    if browserOk then Outcome(true, "Searching for " + query) else Outcome(false, "Couldn't perform search")
  }

  // ---------------------------------------------------------------------
  // take_screenshot, create_file, send_keystroke
  // ---------------------------------------------------------------------

  /**
   * The file the screenshot is saved to: `echo_screenshot_<stamp>.png` in the
   * desktop directory, joined with the Windows separator.
   */
  function ScreenshotPath(desktop: string, stamp: string): (r: string)
    ensures desktop + "\\echo_screenshot_" <= r
    ensures |r| == |desktop| + 17 + |stamp| + 4
    ensures r[|r| - 4..] == ".png" && r[|desktop| + 17..|r| - 4] == stamp
  {
    desktop + "\\" + "echo_screenshot_" + stamp + ".png"
  }

  /** The time stamp can be read back from the path, so two stamps never share a file. */
  lemma ScreenshotPathsDistinct(desktop: string, stamp1: string, stamp2: string)
    ensures ScreenshotPath(desktop, stamp1) == ScreenshotPath(desktop, stamp2) ==> stamp1 == stamp2
  {
  }

  /** `take_screenshot()`: `captureOk` says whether capturing and saving complete. */
  function TakeScreenshot(desktop: string, stamp: string, captureOk: bool): (r: Outcome)
    ensures r.ok == captureOk
    ensures captureOk ==> r.message == "Screenshot saved to " + ScreenshotPath(desktop, stamp)
  {
    if captureOk then Outcome(true, "Screenshot saved to " + ScreenshotPath(desktop, stamp))
    else Outcome(false, "Couldn't take screenshot")
  }

  /** `create_file(filename)`: `writeError` is the text of the exception `open` raises, if any. */
  function CreateFile(filename: string, writeError: Option<string>): (r: Outcome)
    ensures r.ok <==> writeError.None?
    ensures r.ok ==> r.message == "Created file: " + filename
  {
    match writeError
    case None => Outcome(true, "Created file: " + filename)
    case Some(e) => Outcome(false, "Couldn't create file " + filename + ": " + e)
  }

  /** The argument list `pyautogui.hotkey` receives: the chord split on '+'. */
  function HotkeyArgs(keys: string): (r: seq<string>)
    ensures |r| >= 1
    ensures forall k :: 0 <= k < |r| ==> !Contains(r[k], "+")
  {
    Split(keys, "+")
  }

  /** Splitting the chord loses nothing: the keys joined by '+' give the chord back. */
  lemma HotkeyArgsRoundTrip(keys: string)
    ensures Join(HotkeyArgs(keys), "+") == keys
  {
    JoinSplit(keys, "+");
  }

  /** `send_keystroke(keys)`: `hotkeyOk` says whether the key chord is sent. */
  function SendKeystroke(keys: string, hotkeyOk: bool): (r: Outcome)
    ensures r.ok == hotkeyOk
    ensures hotkeyOk ==> r.message == "Sent keystroke: " + keys
  {
    if hotkeyOk then Outcome(true, "Sent keystroke: " + keys) else Outcome(false, "Couldn't send keystroke")
  }

  // ---------------------------------------------------------------------
  // The two text reports
  // ---------------------------------------------------------------------

  lemma ConcatHasNo(a: string, b: string, t: string)
    requires |t| == 1 && !Contains(a, t) && !Contains(b, t)
    ensures !Contains(a + b, t)
  {
    var s := a + b;
    forall i | 0 <= i <= |s| - 1 ensures !OccursAt(s, t, i) {
      if i < |a| {
        assert s[i..i + 1] == a[i..i + 1];
        assert !OccursAt(a, t, i);
      } else {
        assert s[i..i + 1] == b[i - |a|..i - |a| + 1];
        assert !OccursAt(b, t, i - |a|);
      }
    }
  }

  lemma LiteralHasNoNewline(s: string)
    requires forall k :: 0 <= k < |s| ==> s[k] != '\n'
    ensures !Contains(s, "\n")
  {
    forall i | 0 <= i <= |s| - 1 ensures !OccursAt(s, "\n", i) {
      assert s[i] != '\n';
    }
  }

  /** The values `get_system_info` reads; platform strings and numbers alike are opaque text. */
  datatype SystemFields = SystemFields(
    system: string, version: string, machine: string, processor: string,
    ramGb: string, cpuPercent: string, memoryPercent: string)

  const SystemInfoKeys: seq<string> :=
    ["System", "Version", "Machine", "Processor", "RAM", "CPU Usage", "Memory Usage"]

  /** The values of the report's dictionary, in its insertion order. */
  function SystemInfoValues(f: SystemFields): (r: seq<string>)
    ensures |r| == |SystemInfoKeys|
  {
    [f.system, f.version, f.machine, f.processor,
     f.ramGb + " GB", f.cpuPercent + "%", f.memoryPercent + "%"]
  }

  /** One "Key: Value" line per pair. */
  function KeyValueLines(keys: seq<string>, values: seq<string>): (r: seq<string>)
    requires |keys| == |values|
    ensures |r| == |keys|
    ensures forall i :: 0 <= i < |r| ==> r[i] == keys[i] + ": " + values[i]
  {
    if keys == [] then [] else [keys[0] + ": " + values[0]] + KeyValueLines(keys[1..], values[1..])
  }

  /** `get_system_info()`: the report's lines joined by newlines; it opens with the operating system. */
  function GetSystemInfo(f: SystemFields): (r: string)
    ensures "System: " + f.system <= r
  {
    var lines := KeyValueLines(SystemInfoKeys, SystemInfoValues(f));
    JoinStartsWith(lines, "\n");
    Join(lines, "\n")
  }

  predicate FieldsSingleLine(f: SystemFields) {
    forall k :: 0 <= k < 7 ==> !Contains(SystemInfoValues(f)[k], "\n")
  }

  /**
   * When no value holds a newline, the report is exactly seven lines, in
   * the order System, Version, Machine, Processor, RAM, CPU Usage, Memory
   * Usage, each "Key: Value".
   */
  lemma SystemInfoShape(f: SystemFields)
    requires FieldsSingleLine(f)
    ensures var lines := Split(GetSystemInfo(f), "\n");
            |lines| == 7 &&
            forall i :: 0 <= i < 7 ==> lines[i] == SystemInfoKeys[i] + ": " + SystemInfoValues(f)[i]
  {
    var keys, values := SystemInfoKeys, SystemInfoValues(f);
    var lines := KeyValueLines(keys, values);
    forall i | 0 <= i < 7 ensures !Contains(lines[i], "\n") {
      LiteralHasNoNewline(keys[i] + ": ");
      ConcatHasNo(keys[i] + ": ", values[i], "\n");
      assert lines[i] == keys[i] + ": " + values[i];
    }
    SplitJoin(lines, "\n");
  }

  /** What `os.listdir` gives: the entries in listing order, or the error's text. */
  datatype Listing = Entries(names: seq<string>) | ListError(reason: string)

  const MaxListed: nat := 20

  /** "i. name" for each name, numbered from `first`. */
  function NumberedLines(names: seq<string>, first: nat): (r: seq<string>)
    ensures |r| == |names|
    ensures forall i :: 0 <= i < |r| ==> r[i] == NatToString(first + i) + ". " + names[i]
  {
    if names == [] then [] else [NatToString(first) + ". " + names[0]] + NumberedLines(names[1..], first + 1)
  }

  /**
   * `list_files(directory)` once `os.listdir` has answered. A non-empty
   * listing opens with its first entry, numbered 1.
   */
  function ListFiles(directory: string, listing: Listing): (r: string)
    ensures listing.ListError? ==> r == "Couldn't list files in " + directory + ": " + listing.reason
    ensures listing.Entries? && listing.names != [] ==> NatToString(1) + ". " + listing.names[0] <= r
  {
    match listing
    case ListError(e) => "Couldn't list files in " + directory + ": " + e
    case Entries(names) =>
      if names == [] then "No files in " + directory
      else
        var lines := NumberedLines(names[..if |names| < MaxListed then |names| else MaxListed], 1);
        JoinStartsWith(lines, "\n");
        Join(lines, "\n")
  }

  /**
   * A non-empty listing of single-line names gives min(20, n) lines; line i
   * is the decimal numeral of i + 1, ". ", and the i-th name in listing order.
   */
  lemma ListFilesShape(directory: string, names: seq<string>)
    requires names != []
    requires forall k :: 0 <= k < |names| ==> !Contains(names[k], "\n")
    ensures var lines := Split(ListFiles(directory, Entries(names)), "\n");
            |lines| == (if |names| < MaxListed then |names| else MaxListed) &&
            forall i :: 0 <= i < |lines| ==> lines[i] == NatToString(i + 1) + ". " + names[i]
  {
    var n := if |names| < MaxListed then |names| else MaxListed;
    var lines := NumberedLines(names[..n], 1);
    forall i | 0 <= i < n ensures !Contains(lines[i], "\n") {
      NatToStringHasNo(i + 1, "\n");
      LiteralHasNoNewline(". ");
      ConcatHasNo(NatToString(i + 1), ". ", "\n");
      ConcatHasNo(NatToString(i + 1) + ". ", names[i], "\n");
      assert lines[i] == NatToString(i + 1) + ". " + names[..n][i];
    }
    SplitJoin(lines, "\n");
  }

  /** An empty directory is reported by name. */
  lemma ListFilesEmpty(directory: string)
    ensures ListFiles(directory, Entries([])) == "No files in " + directory
  {
  }
}
