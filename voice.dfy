/**
 * The voice side of the assistant that is not audio: choosing the
 * text-to-speech voice and recognising the wake word in a transcript.
 */
module Voice {
  import opened Text

  // ---------------------------------------------------------------------
  // Wake word
  // ---------------------------------------------------------------------

  const WakeWord: string := "echo"
  const WakeAlternatives: seq<string> := ["echo", "eco", "ecko"]

  /**
   * Whether a recognised phrase wakes the assistant: the phrase is lowered,
   * then searched for the wake word or any of its misrecognised spellings.
   * The wake word is itself one of the spellings, so its own test adds nothing.
   */
  predicate IsWake(heard: string)
    ensures IsWake(heard) <==> ContainsAny(Lower(heard), WakeAlternatives)
  {
    var text := Lower(heard);
    assert Contains(text, WakeWord) ==> Contains(text, WakeAlternatives[0]);
    Contains(text, WakeWord) || ContainsAny(text, WakeAlternatives)
  }

  /**
   * The wake word itself is one of the alternatives, so the phrase wakes
   * exactly when it holds "echo", "eco" or "ecko".
   */
  lemma WakeIsAlternatives(heard: string)
    ensures IsWake(heard) <==>
              var text := Lower(heard);
              Contains(text, "echo") || Contains(text, "eco") || Contains(text, "ecko")
  {
    var text := Lower(heard);
    if Contains(text, "eco") {
      assert Contains(text, WakeAlternatives[1]);
    }
    if Contains(text, "ecko") {
      assert Contains(text, WakeAlternatives[2]);
    }
  }

  /** Wake detection does not see case. */
  lemma WakeIgnoresCase(heard: string)
    ensures IsWake(Lower(heard)) == IsWake(heard)
  {
    LowerIdempotent(heard);
  }

  /**
   * Any phrase with "eco" in it wakes the assistant, so words such as
   * "economy" or "ecology" do.
   */
  lemma EcoWakes(heard: string)
    requires Contains(Lower(heard), "eco")
    ensures IsWake(heard)
  {
    assert Contains(Lower(heard), WakeAlternatives[1]);
  }

  /**
   * "eco" does not make the other spellings redundant: "echo" itself has
   * no "eco" in it ("ech" is not "eco").
   */
  lemma EcoDoesNotSubsumeEcho()
    ensures !Contains("echo", "eco")
    ensures !Contains("ecko", "eco")
  {
    forall i | 0 <= i <= 1 ensures !OccursAt("echo", "eco", i) {
      if i == 0 {
        assert "echo"[2] != "eco"[2];
      } else {
        assert "echo"[1] != "eco"[0];
      }
    }
    forall i | 0 <= i <= 1 ensures !OccursAt("ecko", "eco", i) {
      if i == 0 {
        assert "ecko"[2] != "eco"[2];
      } else {
        assert "ecko"[1] != "eco"[0];
      }
    }
  }

  // ---------------------------------------------------------------------
  // Voice selection
  // ---------------------------------------------------------------------

  /** One voice the speech engine offers. */
  datatype VoiceInfo = VoiceInfo(id: string, name: string)

  /** The engine properties `setup_voice` sets; None keeps the engine's default voice. */
  datatype Settings = Settings(voiceId: Option<string>, rate: nat, volume: real)

  const PreferredVoices: seq<string> := ["Zira", "Hazel", "Susan"]
  const SpeechRate: nat := 170
  const SpeechVolume: real := 0.9

  /** A preferred name matches a voice when it occurs in the voice's name, ignoring case. */
  predicate Matches(preferred: string, voice: VoiceInfo) {
    Contains(Lower(voice.name), Lower(preferred))
  }

  /** No voice on offer matches any preferred name. */
  predicate NoPreferredVoice(voices: seq<VoiceInfo>) {
    forall j, k :: 0 <= j < |PreferredVoices| && 0 <= k < |voices| ==>
      !Matches(PreferredVoices[j], voices[k])
  }

  /**
   * Voice k is the one picked for preference j: some voice matches
   * preference j, none matches an earlier preference, and k is the first
   * voice that matches preference j.
   */
  predicate IsPick(voices: seq<VoiceInfo>, j: nat, k: nat) {
    j < |PreferredVoices| && k < |voices| &&
    Matches(PreferredVoices[j], voices[k]) &&
    (forall j', k' :: 0 <= j' < j && 0 <= k' < |voices| ==> !Matches(PreferredVoices[j'], voices[k'])) &&
    (forall k' :: 0 <= k' < k ==> !Matches(PreferredVoices[j], voices[k']))
  }

  /** At most one voice is ever the pick: preference order first, then voice order. */
  lemma PickIsUnique(voices: seq<VoiceInfo>, j1: nat, k1: nat, j2: nat, k2: nat)
    requires IsPick(voices, j1, k1) && IsPick(voices, j2, k2)
    ensures j1 == j2 && k1 == k2
  {
  }

  /**
   * `setup_voice`: the preferred names in order, and for each the voices in
   * order, until a voice matches; that voice becomes the engine's voice.
   * Rate and volume are set whatever was found.
   */
  method SetupVoice(voices: seq<VoiceInfo>) returns (selected: Option<nat>, settings: Settings)
    ensures selected.None? <==> NoPreferredVoice(voices)
    ensures selected.Some? ==> exists j :: IsPick(voices, j, selected.value)
    ensures settings.voiceId == (if selected.Some? then Some(voices[selected.value].id) else None)
    ensures settings.rate == SpeechRate && settings.volume == SpeechVolume
  {
    selected := None;
    var j := 0;
    while j < |PreferredVoices|
      invariant 0 <= j <= |PreferredVoices|
      invariant selected.None?
      invariant forall j', k :: 0 <= j' < j && 0 <= k < |voices| ==> !Matches(PreferredVoices[j'], voices[k])
    {
      var preferred := PreferredVoices[j];
      var k := 0;
      while k < |voices|
        invariant 0 <= k <= |voices|
        invariant selected.None?
        invariant forall k' :: 0 <= k' < k ==> !Matches(preferred, voices[k'])
      {
        if Matches(preferred, voices[k]) {
          selected := Some(k);
          break;
        }
        k := k + 1;
      }
      if selected.Some? {
        assert IsPick(voices, j, selected.value);
        break;
      }
      j := j + 1;
    }
    var voiceId := if selected.Some? then Some(voices[selected.value].id) else None;
    settings := Settings(voiceId, SpeechRate, SpeechVolume);
  }
}
