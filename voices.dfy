/**
 * Read-aloud settings: which installed voices the voice menu offers, and the
 * playback-speed button. Playback itself is the browser's.
 */
module Voices {
  import opened Wrappers
  import opened Text

  /** An installed speech-synthesis voice. */
  datatype Voice = Voice(name: string, lang: string)

  /** A curated accent: its menu label, the voice-name fragments that identify it, and its pitch and rate factors. */
  datatype Accent = Accent(id: string, caption: string, keywords: seq<string>, pitch: real, rateMod: real)

  /** An entry of the voice menu: its label, the voice name it selects, pitch and rate factor. */
  datatype VoiceOption = VoiceOption(caption: string, voiceName: string, pitch: real, rateMod: real)

  const PreferredAccents: seq<Accent> := [
    Accent("trump-hack", "🎙️ Donald Trump (Impression)", ["Google US English", "David", "Alex"], 0.6, 0.85),
    Accent("us-female", "🇺🇸 US Female", ["Google US English Female", "Zira", "Samantha"], 1.0, 1.0),
    Accent("us-male", "🇺🇸 US Male", ["Google US English Male", "David", "Alex"], 1.0, 1.0),
    Accent("uk-female", "🇬🇧 UK Female", ["Google UK English Female", "Susan", "Hazel"], 1.0, 1.0),
    Accent("uk-male", "🇬🇧 UK Male", ["Google UK English Male", "George", "Daniel"], 1.0, 1.0),
    Accent("aus", "🇦🇺 Australian", ["Google Australian", "Karen", "Catherine"], 1.0, 1.0),
    Accent("ind", "🇮🇳 Indian", ["Google हिन्दी", "Rishi", "Veena", "Indian"], 1.0, 1.0)
  ]

  /** How many voices the fallback menu lists at most. */
  const FallbackLimit := 5
  /** How many characters of a voice's name the fallback menu shows. */
  const LabelLength := 25

  /** `keywords.some(k => name.includes(k))`. */
  predicate NameHasKeyword(name: string, keywords: seq<string>) {
    exists k :: k in keywords && Contains(name, k)
  }

  /** The index of the first voice whose name contains one of the keywords. */
  function FirstMatch(voices: seq<Voice>, keywords: seq<string>): (r: Option<nat>)
    ensures r.Some? ==> r.value < |voices| && NameHasKeyword(voices[r.value].name, keywords)
    ensures r.Some? ==> forall j :: 0 <= j < r.value ==> !NameHasKeyword(voices[j].name, keywords)
    ensures r.None? ==> forall j :: 0 <= j < |voices| ==> !NameHasKeyword(voices[j].name, keywords)
  {
    if voices == [] then None
    else if NameHasKeyword(voices[0].name, keywords) then Some(0)
    else
      match FirstMatch(voices[1..], keywords)
      case None => None
      case Some(k) => Some(k + 1)
  }

  /** `voices.find(...)`: the first voice whose name contains one of the keywords. */
  function FindVoice(voices: seq<Voice>, keywords: seq<string>): (r: Option<Voice>)
    ensures r.Some? ==> r.value in voices && NameHasKeyword(r.value.name, keywords)
    ensures r.None? <==> forall v :: v in voices ==> !NameHasKeyword(v.name, keywords)
  {
    match FirstMatch(voices, keywords)
    case None => None
    case Some(i) => Some(voices[i])
  }

  /** The menu entry for an accent matched by `voice`. */
  function AccentOption(accent: Accent, voice: Voice): VoiceOption {
    VoiceOption(accent.caption, voice.name, accent.pitch, accent.rateMod)
  }

  /** The accents of `accents` that some voice matches, each with its first matching voice, in accent order. */
  function AccentOptions(accents: seq<Accent>, voices: seq<Voice>): (r: seq<VoiceOption>)
    ensures |r| <= |accents|
  {
    if accents == [] then []
    else
      var rest := AccentOptions(accents[1..], voices);
      match FindVoice(voices, accents[0].keywords)
      case None => rest
      case Some(v) => [AccentOption(accents[0], v)] + rest
  }

  /** The entry for one accent: none when no voice matches it, else one with its first matching voice. */
  function AccentEntry(accent: Accent, voices: seq<Voice>): (r: seq<VoiceOption>)
    ensures |r| <= 1
  {
    match FindVoice(voices, accent.keywords)
    case None => []
    case Some(v) => [AccentOption(accent, v)]
  }

  /** Each entry is built from one of the accents and an installed voice carrying one of its keywords. */
  lemma {:induction false} AccentOptionsSound(accents: seq<Accent>, voices: seq<Voice>)
    ensures forall o :: o in AccentOptions(accents, voices) ==>
      exists a, v :: a in accents && v in voices && NameHasKeyword(v.name, a.keywords) && o == AccentOption(a, v)
  {
    if accents != [] {
      AccentOptionsSound(accents[1..], voices);
      forall o | o in AccentOptions(accents, voices)
        ensures exists a, v :: a in accents && v in voices && NameHasKeyword(v.name, a.keywords) && o == AccentOption(a, v)
      {
        var found := FindVoice(voices, accents[0].keywords);
        if found.Some? && o == AccentOption(accents[0], found.value) {
          assert accents[0] in accents;
        } else {
          assert o in AccentOptions(accents[1..], voices);
          var a, v :| a in accents[1..] && v in voices && NameHasKeyword(v.name, a.keywords) && o == AccentOption(a, v);
          assert a in accents;
        }
      }
    }
  }

  /** `AccentOptions` takes the accents one at a time: the first one's entry, if a voice matches it, then the rest. */
  lemma {:induction false} AccentOptionsStep(accents: seq<Accent>, k: nat, voices: seq<Voice>)
    requires k < |accents|
    ensures AccentOptions(accents[k..], voices) == AccentEntry(accents[k], voices) + AccentOptions(accents[k + 1..], voices)
  {
    var t := accents[k..];
    assert t[0] == accents[k] && t[1..] == accents[k + 1..];
    if FindVoice(voices, t[0].keywords).None? {
      assert [] + AccentOptions(t[1..], voices) == AccentOptions(t[1..], voices);
    }
  }

  /** `AccentOptions` of a non-empty list: the first accent's entry, then the rest. */
  lemma {:induction false} AccentOptionsCons(accents: seq<Accent>, voices: seq<Voice>)
    requires accents != []
    ensures AccentOptions(accents, voices) == AccentEntry(accents[0], voices) + AccentOptions(accents[1..], voices)
  {
    if FindVoice(voices, accents[0].keywords).None? {
      assert [] + AccentOptions(accents[1..], voices) == AccentOptions(accents[1..], voices);
    }
  }

  /** Accents contribute their entries in accent order: the menu of a concatenation is the concatenation of the menus. */
  lemma {:induction false} AccentOptionsAppend(a: seq<Accent>, b: seq<Accent>, voices: seq<Voice>)
    ensures AccentOptions(a + b, voices) == AccentOptions(a, voices) + AccentOptions(b, voices)
  {
    if a == [] {
      assert a + b == b;
    } else {
      var e, x, y := AccentEntry(a[0], voices), AccentOptions(a[1..], voices), AccentOptions(b, voices);
      assert (a + b)[0] == a[0] && (a + b)[1..] == a[1..] + b;
      AccentOptionsCons(a + b, voices);
      AccentOptionsAppend(a[1..], b, voices);
      AccentOptionsCons(a, voices);
      AppendAssoc(e, x, y);
    }
  }

  /** Appending is associative, stated once for the proofs above. */
  lemma {:induction false} AppendAssoc(a: seq<VoiceOption>, b: seq<VoiceOption>, c: seq<VoiceOption>)
    ensures a + (b + c) == a + b + c
  {
  }

  /** A single accent contributes exactly its own entry: none, or one with its first matching voice. */
  lemma {:induction false} AccentOptionsSingle(accent: Accent, voices: seq<Voice>)
    ensures AccentOptions([accent], voices) == AccentEntry(accent, voices)
  {
    AccentOptionsStep([accent], 0, voices);
    assert [accent][0..] == [accent] && [accent][1..] == [];
    assert AccentEntry(accent, voices) + [] == AccentEntry(accent, voices);
  }

  /**
   * Every accent some voice matches gets its entry, with the first matching
   * voice; so the accent part is empty exactly when no voice matches any accent.
   */
  lemma {:induction false} AccentOptionsComplete(accents: seq<Accent>, voices: seq<Voice>)
    ensures forall a :: a in accents && FindVoice(voices, a.keywords).Some? ==>
      AccentOption(a, FindVoice(voices, a.keywords).value) in AccentOptions(accents, voices)
    ensures AccentOptions(accents, voices) == [] <==>
      forall a, v :: a in accents && v in voices ==> !NameHasKeyword(v.name, a.keywords)
  {
    if accents != [] {
      AccentOptionsComplete(accents[1..], voices);
      assert forall a :: a in accents ==> a == accents[0] || a in accents[1..];
    }
  }

  /** `lang.includes('en')`. */
  predicate IsEnglish(v: Voice) {
    Contains(v.lang, "en")
  }

  /** `voices.filter(v => v.lang.includes('en'))`. */
  function EnglishVoices(voices: seq<Voice>): (r: seq<Voice>)
    ensures |r| <= |voices|
    ensures forall v :: v in r <==> v in voices && IsEnglish(v)
  {
    if voices == [] then []
    else (if IsEnglish(voices[0]) then [voices[0]] else []) + EnglishVoices(voices[1..])
  }

  /** `filter` keeps the installed order: filtering a concatenation filters each part, in order. */
  lemma {:induction false} EnglishVoicesAppend(a: seq<Voice>, b: seq<Voice>)
    ensures EnglishVoices(a + b) == EnglishVoices(a) + EnglishVoices(b)
  {
    if a == [] {
      assert a + b == b;
    } else {
      assert (a + b)[1..] == a[1..] + b;
      EnglishVoicesAppend(a[1..], b);
    }
  }

  /** A single voice is kept exactly when it is English. */
  lemma {:induction false} EnglishVoicesSingle(v: Voice)
    ensures EnglishVoices([v]) == if IsEnglish(v) then [v] else []
  {
    assert [v][1..] == [];
  }

  /** The plain menu entry for a voice: its name cut to 25 characters, neutral pitch and rate. */
  function PlainOption(v: Voice): VoiceOption {
    VoiceOption(v.name[..if |v.name| < LabelLength then |v.name| else LabelLength], v.name, 1.0, 1.0)
  }

  /**
   * The fallback menu: the first five English voices, under their own names;
   * all of them when there are fewer than five, and none exactly when no
   * installed voice is English.
   */
  function FallbackOptions(voices: seq<Voice>): (r: seq<VoiceOption>)
    ensures |r| <= FallbackLimit
    ensures |r| == if |EnglishVoices(voices)| < FallbackLimit then |EnglishVoices(voices)| else FallbackLimit
    ensures forall i :: 0 <= i < |r| ==> r[i] == PlainOption(EnglishVoices(voices)[i])
    ensures r == [] <==> forall v :: v in voices ==> !IsEnglish(v)
  {
    var english := EnglishVoices(voices);
    assert english == [] <==> forall v :: v in voices ==> !IsEnglish(v) by {
      if english != [] {
        assert english[0] in english;
      }
    }
    var shown := english[..if |english| < FallbackLimit then |english| else FallbackLimit];
    seq(|shown|, i requires 0 <= i < |shown| => PlainOption(shown[i]))
  }

  /**
   * The voice menu: one entry per curated accent that some installed voice
   * matches; when none does, the fallback menu.
   */
  function VoiceMenu(voices: seq<Voice>): (r: seq<VoiceOption>)
    ensures |r| <= |PreferredAccents|
    ensures r == [] <==>
      (forall a, v :: a in PreferredAccents && v in voices ==> !NameHasKeyword(v.name, a.keywords))
      && (forall v :: v in voices ==> !IsEnglish(v))
  {
    AccentOptionsComplete(PreferredAccents, voices);
    var curated := AccentOptions(PreferredAccents, voices);
    if curated != [] then curated else FallbackOptions(voices)
  }

  /** The fallback menu has at most five entries, each an installed English voice. */
  lemma {:induction false} FallbackSound(voices: seq<Voice>)
    ensures |FallbackOptions(voices)| <= FallbackLimit
    ensures forall o :: o in FallbackOptions(voices) ==> exists v :: v in voices && IsEnglish(v) && o == PlainOption(v)
  {
    var english := EnglishVoices(voices);
    var shown := english[..if |english| < FallbackLimit then |english| else FallbackLimit];
    forall o | o in FallbackOptions(voices)
      ensures exists v :: v in voices && IsEnglish(v) && o == PlainOption(v)
    {
      var i :| 0 <= i < |shown| && FallbackOptions(voices)[i] == o;
      assert shown[i] in english;
    }
  }

  /**
   * What the menu offers: at most one entry per accent when any accent
   * matches, each naming an installed voice that carries one of that
   * accent's keywords; otherwise at most five entries, each an installed
   * English voice.
   */
  lemma {:induction false} VoiceMenuSound(voices: seq<Voice>)
    ensures AccentOptions(PreferredAccents, voices) != [] ==>
      VoiceMenu(voices) == AccentOptions(PreferredAccents, voices) && |VoiceMenu(voices)| <= |PreferredAccents|
    ensures AccentOptions(PreferredAccents, voices) == [] ==>
      |VoiceMenu(voices)| <= FallbackLimit
      && forall o :: o in VoiceMenu(voices) ==> exists v :: v in voices && IsEnglish(v) && o == PlainOption(v)
  {
    FallbackSound(voices);
  }

  /** One turn of the accent loop: the menu so far, then this accent's entry, then the entries still to come. */
  lemma {:induction false} AccentLoopStep(accents: seq<Accent>, k: nat, voices: seq<Voice>, menu: seq<VoiceOption>)
    requires k < |accents|
    requires menu + AccentOptions(accents[k..], voices) == AccentOptions(accents, voices)
    ensures menu + AccentEntry(accents[k], voices) + AccentOptions(accents[k + 1..], voices) == AccentOptions(accents, voices)
  {
    AccentOptionsStep(accents, k, voices);
    var entry, rest := AccentEntry(accents[k], voices), AccentOptions(accents[k + 1..], voices);
    assert menu + entry + rest == menu + (entry + rest);
  }

  /** The accent loop of `populateVoices`: append an entry for each accent some voice matches, in order. */
  method AddAccents(accents: seq<Accent>, voices: seq<Voice>) returns (menu: seq<VoiceOption>)
    ensures menu == AccentOptions(accents, voices)
  {
    menu := [];
    var k := 0;
    while k < |accents|
      invariant 0 <= k <= |accents|
      invariant menu + AccentOptions(accents[k..], voices) == AccentOptions(accents, voices)
    {
      var found := FindVoice(voices, accents[k].keywords);
      AccentLoopStep(accents, k, voices, menu);
      if found.Some? {
        assert AccentEntry(accents[k], voices) == [AccentOption(accents[k], found.value)];
        menu := menu + [AccentOption(accents[k], found.value)];
      } else {
        assert AccentEntry(accents[k], voices) == [];
        assert menu + [] == menu;
      }
      k := k + 1;
    }
    assert accents[k..] == [];
  }

  /** The fallback loop of `populateVoices`: the first five English voices. */
  method AddFallback(voices: seq<Voice>) returns (menu: seq<VoiceOption>)
    ensures menu == FallbackOptions(voices)
  {
    var english := EnglishVoices(voices);
    var shown := english[..if |english| < FallbackLimit then |english| else FallbackLimit];
    menu := [];
    var j := 0;
    while j < |shown|
      invariant 0 <= j <= |shown|
      invariant menu == seq(j, n requires 0 <= n < j => PlainOption(shown[n]))
    {
      menu := menu + [PlainOption(shown[j])];
      j := j + 1;
    }
  }

  /**
   * `populateVoices`: the curated accents some voice matches; if none was
   * added, the first five English voices.
   */
  method PopulateVoices(voices: seq<Voice>) returns (menu: seq<VoiceOption>)
    ensures menu == VoiceMenu(voices)
  {
    menu := AddAccents(PreferredAccents, voices);
    var addedCount := |menu|;
    if addedCount == 0 {
      menu := AddFallback(voices);
    }
  }

  /** The playback speeds the speed button cycles through. */
  const Speeds: seq<real> := [1.0, 1.5, 2.0]
  /** The button's text for each speed, as `speeds[i] + 'x'` prints it. */
  const SpeedLabels: seq<string> := ["1x", "1.5x", "2x"]

  /** The next speed index: `(speedIndex + 1) % speeds.length`. */
  function NextSpeed(index: nat): (r: nat)
    ensures r < |Speeds|
    ensures index + 1 < |Speeds| ==> r == index + 1
    ensures index + 1 == |Speeds| ==> r == 0
  {
    (index + 1) % |Speeds|
  }

  /** Three presses from any valid index come back to it, passing through every speed. */
  lemma {:induction false} SpeedCycle(index: nat)
    requires index < |Speeds|
    ensures NextSpeed(NextSpeed(NextSpeed(index))) == index
    ensures {index, NextSpeed(index), NextSpeed(NextSpeed(index))} == {0, 1, 2}
  {
  }

  /** The speed button's state. */
  class SpeedButton {
    var speedIndex: nat
    var caption: string

    constructor ()
      ensures speedIndex == 0
    {
      speedIndex := 0;
      caption := SpeedLabels[0];
    }

    /** A click: move to the next speed and show it. */
    method Click()
      modifies this
      ensures speedIndex == NextSpeed(old(speedIndex)) && caption == SpeedLabels[speedIndex]
    {
      speedIndex := NextSpeed(speedIndex);
      caption := SpeedLabels[speedIndex];
    }
  }
}
