/**
 * What the dispatcher's cascade guarantees: which commands reach which
 * provider, what argument each provider receives, and when the language
 * model answers instead.
 */
module DispatchFacts {
  import opened Text
  import P = Providers
  import opened Dispatch

  // ---------------------------------------------------------------------
  // The reply as a whole
  // ---------------------------------------------------------------------

  /**
   * The fallback rule: a reply with the action flag set carries the message
   * of a provider that reported success, and a reply without it is the
   * model's answer to the original command, with its case intact.
   */
  lemma FallbackRule(intent: Intent, command: string, env: Env)
    ensures var reply := Answer(intent, command, env);
            reply.Spoken? ==>
              (reply.actionTaken <==> intent.Acts() && Perform(intent, env).ok) &&
              (reply.actionTaken ==> reply.text == Perform(intent, env).message) &&
              (!reply.actionTaken ==> reply.text == env.generate(command))
  {
  }

  /** Which provider runs depends only on the letters of the command, not their case. */
  lemma ClassifyIgnoresCase(command: string)
    ensures Classify(Lower(command)) == Classify(command)
  {
    StripLower(command);
    LowerIdempotent(command);
  }

  // ---------------------------------------------------------------------
  // The "open" branch
  // ---------------------------------------------------------------------

  /**
   * `find_and_open` is reached exactly when the lowered command contains
   * "open " with its space; "open" alone ("reopen", a trailing "open")
   * stops the cascade and leaves the model to answer.
   */
  lemma OpenTargetExactly(low: string)
    ensures ClassifyLowered(low).OpenTarget? <==> Contains(low, "open ")
    ensures Contains(low, "open") && !Contains(low, "open ") ==> ClassifyLowered(low) == Fallback
  {
    if Contains(low, "open ") {
      ContainsPrefix(low, "open ", "open");
    }
  }

  /** A command holding "open" never reaches the website, search or any later branch. */
  lemma OpenShadowsLaterBranches(low: string)
    requires Contains(low, "open")
    ensures ClassifyLowered(low).OpenTarget? || ClassifyLowered(low) == Fallback
  {
  }

  /**
   * The target is the stripped text between the first "open " and the next
   * one (or the end of the command); it never holds "open " itself.
   */
  lemma OpenTargetIsSegment(low: string)
    requires ClassifyLowered(low).OpenTarget?
    ensures Contains(low, "open ") && ClassifyLowered(low).target == Strip(SegmentAfter(low, "open "))
    ensures !Contains(ClassifyLowered(low).target, "open ")
  {
    OpenTargetExactly(low);
    SplitSecondIsSegment(low, "open ");
    StripKeepsAbsence(SplitSecond(low, "open ").value, "open ");
  }

  // ---------------------------------------------------------------------
  // Websites and searches
  // ---------------------------------------------------------------------

  /**
   * The website branch always opens the whole stripped command: its
   * "open " split can never apply, since "open" already took the command.
   */
  lemma WebsiteUsesWholeCommand(low: string)
    requires ClassifyLowered(low).OpenWebsite?
    ensures ClassifyLowered(low).url == Strip(low)
    ensures ContainsAny(low, WebsiteMarkers)
  {
    AbsentExtension(low, "open ", "open");
  }

  /**
   * The search query: the segment after "search for " when it occurs, else
   * the segment after "search " (which beats "google "), else the segment
   * after "google ", else the whole command, as in "look up the weather".
   */
  lemma SearchQueryChoice(low: string)
    ensures Contains(low, "search for ") ==> SearchQuery(low) == SegmentAfter(low, "search for ")
    ensures !Contains(low, "search for ") && Contains(low, "search ") ==>
              SearchQuery(low) == SegmentAfter(low, "search ")
    ensures !Contains(low, "search ") && Contains(low, "google ") ==>
              SearchQuery(low) == SegmentAfter(low, "google ")
    ensures !Contains(low, "search ") && !Contains(low, "google ") ==> SearchQuery(low) == low
  {
    if Contains(low, "search for ") {
      ContainsPrefix(low, "search for ", "search ");
      SplitSecondIsSegment(low, "search for ");
    } else if Contains(low, "search ") {
      SplitSecondIsSegment(low, "search ");
    } else if Contains(low, "google ") {
      SplitSecondIsSegment(low, "google ");
    }
  }

  // ---------------------------------------------------------------------
  // Volume and power
  // ---------------------------------------------------------------------

  /**
   * The volume word: "up"/"increase" wins over "down"/"decrease", which
   * wins over "mute"; since "unmute" contains "mute", a spoken "unmute"
   * resolves to "mute" (both toggle).
   */
  lemma VolumeWordPriority(low: string)
    ensures var a := VolumeWord(low);
            a == "up" || a == "down" || a == "mute" || a == "unmute"
    ensures VolumeWord(low) == "up" <==> ContainsAny(low, ["up", "increase"])
    ensures VolumeWord(low) == "down" <==>
              !ContainsAny(low, ["up", "increase"]) && ContainsAny(low, ["down", "decrease"])
    ensures VolumeWord(low) == "mute" <==>
              !ContainsAny(low, ["up", "increase"]) && !ContainsAny(low, ["down", "decrease"]) &&
              Contains(low, "mute")
    ensures VolumeWord(low) == "unmute" <==>
              !ContainsAny(low, ["up", "increase"]) && !ContainsAny(low, ["down", "decrease"]) &&
              !Contains(low, "mute")
    ensures Contains(low, "unmute") ==> VolumeWord(low) != "unmute"
  {
    if Contains(low, "unmute") {
      var i :| 0 <= i <= |low| - 6 && OccursAt(low, "unmute", i);
      assert low[i + 2..i + 6] == "mute";
      assert OccursAt(low, "mute", i + 2);
    }
  }

  /**
   * `control_volume` always knows the word the cascade picks, so only the
   * key press can fail, and then with its own message.
   */
  lemma VolumeNeverInvalid(low: string, pressOk: bool)
    ensures P.ControlVolume(VolumeWord(low), pressOk).ok == pressOk
    ensures !pressOk ==> P.ControlVolume(VolumeWord(low), pressOk) == P.Outcome(false, "Couldn't control volume")
  {
    VolumeWordPriority(low);
    P.ControlVolumeTable();
  }

  /**
   * Inside the power branch the word is "shutdown" when the command says
   * so and "restart" otherwise ("reboot" included): "cancel" is never
   * produced, since the branch is only entered when one of the three
   * words occurs.
   */
  lemma PowerWordResolution(low: string)
    requires ContainsAny(low, PowerMarkers)
    ensures PowerWord(low) == "shutdown" <==> Contains(low, "shutdown")
    ensures PowerWord(low) == "restart" <==> !Contains(low, "shutdown")
  {
    var k :| 0 <= k < |PowerMarkers| && Contains(low, PowerMarkers[k]);
    if k > 0 {
      var rest: seq<string> := ["restart", "reboot"];
      assert Contains(low, rest[k - 1]);
    }
  }

  /** `shutdown_or_restart` always knows the word the power branch picks, so only spawning can fail. */
  lemma PowerNeverInvalid(low: string, spawnOk: bool)
    requires ContainsAny(low, PowerMarkers)
    ensures P.ShutdownOrRestart(PowerWord(low), spawnOk).ok == spawnOk
  {
    PowerWordResolution(low);
    P.ShutdownOrRestartTable();
  }

  // ---------------------------------------------------------------------
  // Files and keystrokes
  // ---------------------------------------------------------------------

  /**
   * The create-file name: present exactly when "file " occurs; it is the
   * stripped segment after the first "file " (so it holds no "file "),
   * with ".txt" appended exactly when the WHOLE command has no '.'.
   */
  lemma CreateFileNaming(low: string)
    ensures CreateFileName(low).Some? <==> Contains(low, "file ")
    ensures Contains(low, "file ") ==>
              var stem := Strip(SegmentAfter(low, "file "));
              CreateFileName(low) == Some(stem + (if Contains(low, ".") then "" else ".txt")) &&
              !Contains(stem, "file ")
  {
    if Contains(low, "file ") {
      var segment := SplitSecond(low, "file ").value;
      SplitSecondIsSegment(low, "file ");
      StripKeepsAbsence(segment, "file ");
    }
  }

  /**
   * Saying "create file" or "make files" reaches the create-file branch
   * with no "file " to split on, so `split("file ")[1]` raises.
   */
  lemma CreateFileWithoutName()
    ensures ClassifyLowered("create file") == Crash
    ensures ClassifyLowered("make files") == Crash
  {
    NoFileMarkerInCreateFile();
    CreateFileReachesBranch();
    NoFileMarkerInMakeFiles();
    MakeFilesReachesBranch();
  }

  lemma NoFileMarkerInCreateFile()
    ensures !Contains("create file", "file ")
  {
    var s := "create file";
    forall i | 0 <= i <= |s| - 5 ensures !OccursAt(s, "file ", i) {
      assert s[i..i + 5][0] == s[i] != 'f';
    }
  }

  lemma NoFileMarkerInMakeFiles()
    ensures !Contains("make files", "file ")
  {
    var s := "make files";
    forall i | 0 <= i <= |s| - 5 ensures !OccursAt(s, "file ", i) {
      if i < 5 {
        assert s[i..i + 5][0] == s[i] != 'f';
      } else {
        assert s[i..i + 5][4] == s[9] != ' ';
      }
    }
  }

  /** "create file" holds none of the earlier markers: it lacks 'o', 's', 'b' and 'v'. */
  lemma CreateFileReachesBranch()
    ensures ReachesCreateBranch("create file")
  {
    var s := "create file";
    assert OccursAt(s, CreateMarkers[0], 0);
    assert Contains(s, CreateMarkers[0]);
    CreateFileLacksMarkerLists();
    CreateFileLacksMarkers();
  }

  lemma CreateFileLacksMarkers()
    ensures !Contains("create file", "open") && !Contains("create file", "system info")
    ensures !Contains("create file", "screenshot") && !Contains("create file", "list files")
    ensures !Contains("create file", "volume")
  {
    var s := "create file";
    MissingChar(s, "open", 0);
    MissingChar(s, "system info", 0);
    MissingChar(s, "screenshot", 0);
    MissingChar(s, "list files", 2);
    MissingChar(s, "volume", 0);
  }

  lemma CreateFileLacksMarkerLists()
    ensures !ContainsAny("create file", WebsiteMarkers)
    ensures !ContainsAny("create file", SearchMarkers)
    ensures !ContainsAny("create file", PowerMarkers)
  {
    var s := "create file";
    LacksAll(s, WebsiteMarkers, [0, 0, 0, 0]);
    LacksAll(s, SearchMarkers, [0, 1, 1]);
    LacksAll(s, PowerMarkers, [0, 2, 2]);
  }

  /** "make files" holds none of the earlier markers: it lacks 'o', 'r', 't', 'w', 'y', '.' and 'v'. */
  lemma MakeFilesReachesBranch()
    ensures ReachesCreateBranch("make files")
  {
    var s := "make files";
    assert OccursAt(s, CreateMarkers[1], 0);
    assert Contains(s, CreateMarkers[1]);
    MakeFilesLacksMarkerLists();
    MakeFilesLacksMarkers();
  }

  lemma MakeFilesLacksMarkers()
    ensures !Contains("make files", "open") && !Contains("make files", "system info")
    ensures !Contains("make files", "screenshot") && !Contains("make files", "list files")
    ensures !Contains("make files", "volume")
  {
    var s := "make files";
    MissingChar(s, "open", 0);
    MissingChar(s, "system info", 1);
    MissingChar(s, "screenshot", 2);
    MissingChar(s, "list files", 3);
    MissingChar(s, "volume", 0);
  }

  lemma MakeFilesLacksMarkerLists()
    ensures !ContainsAny("make files", WebsiteMarkers)
    ensures !ContainsAny("make files", SearchMarkers)
    ensures !ContainsAny("make files", PowerMarkers)
  {
    var s := "make files";
    LacksAll(s, WebsiteMarkers, [0, 2, 0, 0]);
    LacksAll(s, SearchMarkers, [3, 1, 1]);
    LacksAll(s, PowerMarkers, [5, 0, 0]);
  }

  /** No needle occurs when each has, at the given position, a character the string lacks. */
  lemma LacksAll(s: string, needles: seq<string>, at: seq<nat>)
    requires |at| == |needles|
    requires forall k :: 0 <= k < |needles| ==> at[k] < |needles[k]|
    requires forall k, j :: 0 <= k < |needles| && 0 <= j < |s| ==> s[j] != needles[k][at[k]]
    ensures !ContainsAny(s, needles)
  {
    forall k | 0 <= k < |needles| ensures !Contains(s, needles[k]) {
      MissingChar(s, needles[k], at[k]);
    }
  }

  /** The keystroke chord: the stripped segment after the first "press ", or the whole command untouched. */
  lemma KeystrokeChord(low: string)
    ensures !Contains(low, "press ") ==> KeystrokeKeys(low) == low
    ensures Contains(low, "press ") ==>
              KeystrokeKeys(low) == Strip(SegmentAfter(low, "press ")) && !Contains(KeystrokeKeys(low), "press ")
  {
    if Contains(low, "press ") {
      SplitSecondIsSegment(low, "press ");
      StripKeepsAbsence(SplitSecond(low, "press ").value, "press ");
    }
  }

  // ---------------------------------------------------------------------
  // Spoken create-file commands
  // ---------------------------------------------------------------------

  /** The name after the first "file " when the text before it holds no 'f'. */
  lemma SplitAfterFile(head: string, name: string)
    requires forall j :: 0 <= j < |head| ==> head[j] != 'f'
    requires !Contains(name, "file ")
    ensures SplitSecond(head + "file " + name, "file ") == Some(name)
  {
    var s := head + "file " + name;
    assert OccursAt(s, "file ", |head|);
    FirstAt(s, "file ", |head|);
    assert s[|head| + 5..] == name;
    assert Split(name, "file ") == [name];
    assert Split(s, "file ") == [s[..|head|]] + Split(name, "file ");
  }

  /** Once the split has produced a stripped name, only the '.' test decides the suffix. */
  lemma CreateFileNameOf(low: string, name: string)
    requires SplitSecond(low, "file ") == Some(name) && Strip(name) == name
    ensures CreateFileName(low) == Some(name + (if Contains(low, ".") then "" else ".txt"))
  {
  }

  /**
   * The name the create-file branch computes for "create file NAME",
   * "please make file NAME", and any other command whose text before
   * "file " has no 'f' and no '.': NAME, with ".txt" added exactly when
   * NAME has no '.'; NAME must be free of edge whitespace and of "file ".
   * Whether the branch is reached at all depends on NAME too; see
   * `CreateFileSpokenCreates` and `CreateFileShadowed`.
   */
  lemma CreateFileSpoken(head: string, name: string)
    requires forall j :: 0 <= j < |head| ==> head[j] != 'f' && head[j] != '.'
    requires Strip(name) == name && !Contains(name, "file ")
    ensures CreateFileName(head + "file " + name) == Some(name + (if Contains(name, ".") then "" else ".txt"))
  {
    SplitAfterFile(head, name);
    CreateFileNameOf(head + "file " + name, name);
    DotOnlyInName(head, name);
  }

  /**
   * A '.' anywhere in the command, not only in the name, suppresses
   * ".txt": for "ok. create file NAME" the create-file branch computes
   * NAME as spoken.
   */
  lemma CreateFileDotElsewhere(head: string, name: string)
    requires forall j :: 0 <= j < |head| ==> head[j] != 'f'
    requires Contains(head, ".")
    requires Strip(name) == name && !Contains(name, "file ")
    ensures CreateFileName(head + "file " + name) == Some(name)
  {
    SplitAfterFile(head, name);
    DotBeforeFile(head, name);
    CreateFileNameDotted(head + "file " + name, name);
  }

  lemma CreateFileNameDotted(low: string, name: string)
    requires SplitSecond(low, "file ") == Some(name) && Strip(name) == name
    requires Contains(low, ".")
    ensures CreateFileName(low) == Some(name)
  {
    assert name + "" == name;
  }

  /** With no '.' before "file ", the command holds a '.' exactly when the name does. */
  lemma DotOnlyInName(head: string, name: string)
    requires forall j :: 0 <= j < |head| ==> head[j] != '.'
    ensures Contains(head + "file " + name, ".") <==> Contains(name, ".")
  {
    FileMarkerHasNoDot(head);
    LiteralHasDot(head + "file ", name);
  }

  /** A '.' before "file " is a '.' in the command. */
  lemma DotBeforeFile(head: string, name: string)
    requires Contains(head, ".")
    ensures Contains(head + "file " + name, ".")
  {
    PrefixHolds(head, "file " + name, ".");
    assert head + ("file " + name) == head + "file " + name;
  }

  lemma FileMarkerHasNoDot(head: string)
    requires forall j :: 0 <= j < |head| ==> head[j] != '.'
    ensures forall j :: 0 <= j < |head + "file "| ==> (head + "file ")[j] != '.'
  {
    var h := head + "file ";
    forall j | 0 <= j < |h| ensures h[j] != '.' {
      if j >= |head| {
        assert h[j] == "file "[j - |head|];
      }
    }
  }

  /** What a prefix holds, the whole string holds. */
  lemma PrefixHolds(head: string, tail: string, t: string)
    requires Contains(head, t)
    ensures Contains(head + tail, t)
  {
    var s := head + tail;
    assert s[0..|head|] == head;
    ContainsSlice(s, t, 0, |head|);
  }

  /** A prefix without '.' adds no '.' to what follows it. */
  lemma LiteralHasDot(head: string, name: string)
    requires forall j :: 0 <= j < |head| ==> head[j] != '.'
    ensures Contains(head + name, ".") <==> Contains(name, ".")
  {
    var s := head + name;
    assert s[|head|..] == name;
    if Contains(name, ".") {
      assert s[|head|..|s|] == name;
      ContainsSlice(s, ".", |head|, |s|);
    } else {
      forall i | 0 <= i <= |s| - 1 ensures !OccursAt(s, ".", i) {
        if i < |head| {
          assert s[i..i + 1] == [head[i]];
        } else {
          assert s[i..i + 1] == name[i - |head|..i - |head| + 1];
          assert !OccursAt(name, ".", i - |head|);
        }
      }
    }
  }

  /** Such a command that reaches the create-file branch creates NAME, plus ".txt" exactly when NAME has no '.'. */
  lemma CreateFileSpokenCreates(head: string, name: string)
    requires forall j :: 0 <= j < |head| ==> head[j] != 'f' && head[j] != '.'
    requires Strip(name) == name && !Contains(name, "file ")
    requires ReachesCreateBranch(head + "file " + name)
    ensures ClassifyLowered(head + "file " + name) == CreateFile(name + (if Contains(name, ".") then "" else ".txt"))
  {
    CreateFileSpoken(head, name);
  }

  /** With a '.' before "file ", a command that reaches the create-file branch creates NAME as spoken. */
  lemma CreateFileDotElsewhereCreates(head: string, name: string)
    requires forall j :: 0 <= j < |head| ==> head[j] != 'f'
    requires Contains(head, ".")
    requires Strip(name) == name && !Contains(name, "file ")
    requires ReachesCreateBranch(head + "file " + name)
    ensures ClassifyLowered(head + "file " + name) == CreateFile(name)
  {
    CreateFileDotElsewhere(head, name);
  }

  // ---------------------------------------------------------------------
  // The create-file branch comes late
  // ---------------------------------------------------------------------

  /**
   * Every earlier test looks at the whole command, NAME included, so a
   * spoken file name can send the command elsewhere: "create file reboot"
   * restarts the machine and "create file notes.com" opens a website.
   */
  lemma CreateFileShadowed()
    ensures ClassifyLowered("create file reboot") == Power("restart")
    ensures ClassifyLowered("create file notes.com").OpenWebsite?
  {
    RebootLacksMarkers();
    RebootLacksMarkerLists();
    RebootHasReboot();
    NotesComLacksOpen();
    NotesComHasCom();
  }

  lemma RebootLacksMarkers()
    ensures !Contains("create file reboot", "open") && !Contains("create file reboot", "system info")
    ensures !Contains("create file reboot", "screenshot") && !Contains("create file reboot", "list files")
    ensures !Contains("create file reboot", "volume") && !Contains("create file reboot", "shutdown")
  {
    var s := "create file reboot";
    MissingChar(s, "open", 1);
    MissingChar(s, "system info", 0);
    MissingChar(s, "screenshot", 0);
    MissingChar(s, "list files", 2);
    MissingChar(s, "volume", 0);
    MissingChar(s, "shutdown", 0);
  }

  lemma RebootLacksMarkerLists()
    ensures !ContainsAny("create file reboot", WebsiteMarkers)
    ensures !ContainsAny("create file reboot", SearchMarkers)
  {
    var s := "create file reboot";
    LacksAll(s, WebsiteMarkers, [0, 0, 0, 0]);
    LacksAll(s, SearchMarkers, [0, 3, 0]);
  }

  lemma RebootHasReboot()
    ensures ContainsAny("create file reboot", PowerMarkers)
    ensures ContainsAny("create file reboot", ["restart", "reboot"])
  {
    var s := "create file reboot";
    assert OccursAt(s, "reboot", 12);
    assert Contains(s, PowerMarkers[2]);
    assert Contains(s, ["restart", "reboot"][1]);
  }

  lemma NotesComLacksOpen()
    ensures !Contains("create file notes.com", "open")
  {
    MissingChar("create file notes.com", "open", 1);
  }

  lemma NotesComHasCom()
    ensures ContainsAny("create file notes.com", WebsiteMarkers)
  {
    var s := "create file notes.com";
    assert OccursAt(s, ".com", 17);
    assert Contains(s, WebsiteMarkers[2]);
  }
}
