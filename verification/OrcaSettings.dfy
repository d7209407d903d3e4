/** The screen reader's settings, kept in a JSON file and in the manager's fields
    (`OrcaManager` in screenreader.rs). */
module OrcaSettings {
  import opened Base
  import opened Json

  const PITCH_SETTING := "average-pitch"
  const RATE_SETTING := "rate"
  const VOLUME_SETTING := "gain"

  const PITCH_DEFAULT := 5.0
  const RATE_DEFAULT := 50.0
  const VOLUME_DEFAULT := 10.0
  const VOICE_NAME_DEFAULT := "default"

  const VOICE: Path := ["profiles", "default", "voices", "default"]
  const FAMILY: Path := VOICE + ["family"]

  /** A synthesizer voice. */
  datatype Voice = Voice(name: string, language: string, variant: Option<string>)

  /** A language and its dialect, the parts around the first hyphen if there is one. */
  function SplitLanguage(s: string): (parts: (string, string))
    ensures '-' !in parts.0
    ensures if '-' in s then s == parts.0 + "-" + parts.1 else parts == (s, "")
  {
    if s == "" then ("", "")
    else if s[0] == '-' then ("", s[1..])
    else
      var rest := SplitLanguage(s[1..]);
      assert s == [s[0]] + s[1..];
      ([s[0]] + rest.0, rest.1)
  }

  /** What the manager shows. */
  datatype Shown = Shown(pitch: real, rate: real, volume: real, voice: string)

  /** What a new manager shows before it reads the file. */
  const INITIAL := Shown(PITCH_DEFAULT, RATE_DEFAULT, VOLUME_DEFAULT, "")

  predicate IsValidOption(option: string, value: real) {
    || (option == PITCH_SETTING && 0.0 <= value <= 10.0)
    || (option == RATE_SETTING && 0.0 <= value <= 100.0)
    || (option == VOLUME_SETTING && 0.0 <= value <= 10.0)
  }

  // ----- the file -----

  /** The tree `set_orca_option` writes, or `None` when it writes nothing. */
  function WithOption(j: Json, option: string, value: real): Option<Json> {
    if IsValidOption(option, value) then Put(j, VOICE, option, Number(value)) else None
  }

  function OrNull(text: Option<string>): Json {
    if text.Some? then Text(text.value) else Null
  }

  function Then(j: Option<Json>, path: Path, key: string, value: Json): Option<Json> {
    if j.Some? then Put(j.value, path, key, value) else None
  }

  /** The tree `set_orca_voice` writes. */
  function WithVoice(j: Json, v: Voice): Option<Json> {
    var (language, dialect) := SplitLanguage(v.language);
    var j1 := Put(j, FAMILY, "name", Text(v.name));
    var j2 := Then(j1, FAMILY, "lang", Text(language));
    var j3 := Then(j2, FAMILY, "variant", OrNull(v.variant));
    var j4 := Then(j3, FAMILY, "dialect", Text(dialect));
    Then(j4, VOICE, "established", Bool(true))
  }

  /** The tree `set_orca_enabled` writes. */
  function WithEnabled(j: Json, enabled: bool): Option<Json> {
    Put(j, ["general"], "enableSpeech", Bool(enabled))
  }

  function NumberOr(j: Json, default: real): real { if j.Number? then j.number else default }

  /** `load_values`: what the manager shows after reading the file. */
  function Loaded(j: Json, s: Shown): Shown {
    if At(j, VOICE).None? then s.(pitch := PITCH_DEFAULT, rate := RATE_DEFAULT, volume := VOLUME_DEFAULT)
    else
      var pitch := At(j, VOICE + [PITCH_SETTING]);
      var rate := At(j, VOICE + [RATE_SETTING]);
      var volume := At(j, VOICE + [VOLUME_SETTING]);
      var name := At(j, FAMILY + ["name"]);
      Shown(
        if pitch.Some? then NumberOr(pitch.value, PITCH_DEFAULT) else PITCH_DEFAULT,
        if rate.Some? then NumberOr(rate.value, RATE_DEFAULT) else s.rate,
        if volume.Some? then NumberOr(volume.value, VOLUME_DEFAULT) else s.volume,
        if name.Some? then (if name.value.Text? then name.value.text else VOICE_NAME_DEFAULT) else s.voice)
  }

  function ShownWith(s: Shown, option: string, value: real): Shown {
    if option == PITCH_SETTING then s.(pitch := value)
    else if option == RATE_SETTING then s.(rate := value)
    else if option == VOLUME_SETTING then s.(volume := value)
    else s
  }

  // ----- the manager as an object -----

  class OrcaManager {
    var pitch: real
    var rate: real
    var volume: real
    var voice: string
    var file: Json

    ghost function Fields(): Shown
      reads this
    {
      Shown(pitch, rate, volume, voice)
    }

    constructor (file: Json)
      ensures Fields() == Loaded(file, INITIAL)
      ensures this.file == file
    {
      pitch, rate, volume, voice := PITCH_DEFAULT, RATE_DEFAULT, VOLUME_DEFAULT, "";
      this.file := file;
      new;
      LoadValues();
    }

    method LoadValues()
      modifies this
      ensures Fields() == Loaded(file, old(Fields())) && file == old(file)
    {
      if At(file, VOICE).None? {
        pitch, rate, volume := PITCH_DEFAULT, RATE_DEFAULT, VOLUME_DEFAULT;
        return;
      }
      var found := At(file, VOICE + [PITCH_SETTING]);
      pitch := if found.Some? then NumberOr(found.value, PITCH_DEFAULT) else PITCH_DEFAULT;
      found := At(file, VOICE + [RATE_SETTING]);
      if found.Some? {
        rate := NumberOr(found.value, RATE_DEFAULT);
      }
      found := At(file, VOICE + [VOLUME_SETTING]);
      if found.Some? {
        volume := NumberOr(found.value, VOLUME_DEFAULT);
      }
      found := At(file, FAMILY + ["name"]);
      if found.Some? {
        voice := if found.value.Text? then found.value.text else VOICE_NAME_DEFAULT;
      }
    }

    method Store(tree: Option<Json>, write: Call) returns (ok: bool)
      modifies this`file
      ensures ok == (tree.Some? && write.Done?)
      ensures file == if tree.Some? && !write.Refused? then tree.value else old(file)
    {
      if tree.None? || write.Refused? { return false; }
      file := tree.value;
      ok := write.Done?;
    }

    /** `set_pitch`, `set_rate` and `set_volume`. */
    method SetOption(option: string, value: real, write: Call) returns (ok: bool)
      modifies this
      ensures ok == (WithOption(old(file), option, value).Some? && write.Done?)
      ensures (Fields(), file) == Apply(old(Fields()), old(file), OptionTo(option, value, write))
    {
      ok := Store(WithOption(file, option, value), write);
      if !ok { return; }
      if option == PITCH_SETTING {
        pitch := value;
      } else if option == RATE_SETTING {
        rate := value;
      } else {
        volume := value;
      }
    }

    method SetVoice(v: Voice, write: Call) returns (ok: bool)
      modifies this
      ensures ok == (WithVoice(old(file), v).Some? && write.Done?)
      ensures (Fields(), file) == Apply(old(Fields()), old(file), VoiceTo(v, write))
    {
      ok := Store(WithVoice(file, v), write);
      if !ok { return; }
      voice := v.name;
    }

    method SetOrcaEnabled(enabled: bool, write: Call) returns (ok: bool)
      modifies this`file
      ensures ok == (WithEnabled(old(file), enabled).Some? && write.Done?)
      ensures (Fields(), file) == Apply(old(Fields()), old(file), EnabledTo(enabled, write))
    {
      ok := Store(WithEnabled(file, enabled), write);
    }
  }

  datatype Operation =
    | OptionTo(option: string, value: real, write: Call)
    | VoiceTo(v: Voice, write: Call)
    | EnabledTo(enabled: bool, write: Call)

  function Stored(file: Json, tree: Option<Json>, write: Call): Json {
    if tree.Some? && !write.Refused? then tree.value else file
  }

  /** What an operation makes of the fields and the file. */
  function Apply(s: Shown, file: Json, op: Operation): (Shown, Json) {
    match op
    case OptionTo(option, value, write) =>
      var tree := WithOption(file, option, value);
      (if tree.Some? && write.Done? then ShownWith(s, option, value) else s, Stored(file, tree, write))
    case VoiceTo(v, write) =>
      var tree := WithVoice(file, v);
      (if tree.Some? && write.Done? then s.(voice := v.name) else s, Stored(file, tree, write))
    case EnabledTo(enabled, write) => (s, Stored(file, WithEnabled(file, enabled), write))
  }

  // ----- what an update changes -----

  lemma PathsApart(option: string)
    requires option == PITCH_SETTING || option == RATE_SETTING || option == VOLUME_SETTING
    ensures forall other :: other != option ==>
      !(VOICE + [option] <= VOICE + [other]) && !(VOICE + [other] <= VOICE + [option])
    ensures !(VOICE + [option] <= FAMILY + ["name"]) && !(FAMILY + ["name"] <= VOICE + [option])
  {
    assert forall other: string :: (VOICE + [other])[4] == other;
    assert (FAMILY + ["name"])[4] == "family";
  }

  /** What `load_values` looks at. */
  ghost predicate SameNumbers(j: Json, j1: Json) {
    && At(j1, VOICE + [PITCH_SETTING]) == At(j, VOICE + [PITCH_SETTING])
    && At(j1, VOICE + [RATE_SETTING]) == At(j, VOICE + [RATE_SETTING])
    && At(j1, VOICE + [VOLUME_SETTING]) == At(j, VOICE + [VOLUME_SETTING])
  }

  ghost predicate SameName(j: Json, j1: Json) {
    At(j1, FAMILY + ["name"]) == At(j, FAMILY + ["name"])
  }

  lemma FamilyPut(j: Json, key: string, value: Json)
    requires Put(j, FAMILY, key, value).Some?
    ensures var j1 := Put(j, FAMILY, key, value).value;
      && At(j1, VOICE).Some?
      && SameNumbers(j, j1)
      && (key != "name" ==> SameName(j, j1))
      && (key == "name" ==> At(j1, FAMILY + ["name"]) == Some(value))
  {
    var written := FAMILY + [key];
    assert written[4] == "family" && written[5] == key && (FAMILY + ["name"])[5] == "name";
    assert forall option :: (VOICE + [option])[4] == option;
    PutElsewhere(j, FAMILY, key, value, VOICE + [PITCH_SETTING]);
    PutElsewhere(j, FAMILY, key, value, VOICE + [RATE_SETTING]);
    PutElsewhere(j, FAMILY, key, value, VOICE + [VOLUME_SETTING]);
    if key == "name" {
      PutThenAt(j, FAMILY, key, value);
    } else {
      PutElsewhere(j, FAMILY, key, value, FAMILY + ["name"]);
    }
    PutAbove(j, FAMILY, key, value, 4);
    assert FAMILY[..4] == VOICE;
  }

  lemma EstablishedPut(j: Json, value: Json)
    requires Put(j, VOICE, "established", value).Some?
    ensures var j1 := Put(j, VOICE, "established", value).value;
      At(j1, VOICE).Some? && SameNumbers(j, j1) && SameName(j, j1)
  {
    assert (VOICE + ["established"])[4] == "established" && (FAMILY + ["name"])[4] == "family";
    assert forall option :: (VOICE + [option])[4] == option;
    PutElsewhere(j, VOICE, "established", value, VOICE + [PITCH_SETTING]);
    PutElsewhere(j, VOICE, "established", value, VOICE + [RATE_SETTING]);
    PutElsewhere(j, VOICE, "established", value, VOICE + [VOLUME_SETTING]);
    PutElsewhere(j, VOICE, "established", value, FAMILY + ["name"]);
    PutAbove(j, VOICE, "established", value, 4);
    assert VOICE[..4] == VOICE;
  }

  /** A successful voice update leaves the numbers alone and names the voice. */
  lemma VoicePut(j: Json, v: Voice)
    requires WithVoice(j, v).Some?
    ensures var j1 := WithVoice(j, v).value;
      && At(j1, VOICE).Some? && SameNumbers(j, j1)
      && At(j1, FAMILY + ["name"]) == Some(Text(v.name))
  {
    var j1 := Put(j, FAMILY, "name", Text(v.name)).value;
    FamilyPut(j, "name", Text(v.name));
    var j2 := Put(j1, FAMILY, "lang", Text(SplitLanguage(v.language).0)).value;
    FamilyPut(j1, "lang", Text(SplitLanguage(v.language).0));
    var j3 := Put(j2, FAMILY, "variant", OrNull(v.variant)).value;
    FamilyPut(j2, "variant", OrNull(v.variant));
    var j4 := Put(j3, FAMILY, "dialect", Text(SplitLanguage(v.language).1)).value;
    FamilyPut(j3, "dialect", Text(SplitLanguage(v.language).1));
    EstablishedPut(j4, Bool(true));
  }

  predicate Apart(q: Path, place: Path) { !(q <= place) && !(place <= q) }

  /** Everything apart from the five places it writes is as it was. */
  lemma VoiceElsewhere(j: Json, v: Voice, q: Path)
    requires WithVoice(j, v).Some?
    requires Apart(q, FAMILY + ["name"]) && Apart(q, FAMILY + ["lang"]) && Apart(q, FAMILY + ["variant"])
    requires Apart(q, FAMILY + ["dialect"]) && Apart(q, VOICE + ["established"])
    ensures At(WithVoice(j, v).value, q) == At(j, q)
  {
    var j1 := Put(j, FAMILY, "name", Text(v.name)).value;
    PutElsewhere(j, FAMILY, "name", Text(v.name), q);
    var j2 := Put(j1, FAMILY, "lang", Text(SplitLanguage(v.language).0)).value;
    PutElsewhere(j1, FAMILY, "lang", Text(SplitLanguage(v.language).0), q);
    var j3 := Put(j2, FAMILY, "variant", OrNull(v.variant)).value;
    PutElsewhere(j2, FAMILY, "variant", OrNull(v.variant), q);
    var j4 := Put(j3, FAMILY, "dialect", Text(SplitLanguage(v.language).1)).value;
    PutElsewhere(j3, FAMILY, "dialect", Text(SplitLanguage(v.language).1), q);
    PutElsewhere(j4, VOICE, "established", Bool(true), q);
  }

  /** A later key of the same object is another place. */
  lemma Siblings(j: Json, path: Path, key: string, value: Json, other: string)
    requires Put(j, path, key, value).Some? && other != key
    ensures At(Put(j, path, key, value).value, path + [other]) == At(j, path + [other])
  {
    assert (path + [key])[|path|] == key && (path + [other])[|path|] == other;
    PutElsewhere(j, path, key, value, path + [other]);
  }

  /** Every part of the voice is where the screen reader looks for it. */
  lemma VoiceIsStored(j: Json, v: Voice)
    requires WithVoice(j, v).Some?
    ensures var j1, (language, dialect) := WithVoice(j, v).value, SplitLanguage(v.language);
      && At(j1, FAMILY + ["name"]) == Some(Text(v.name))
      && FAMILY == ["profiles", "default", "voices", "default", "family"]
      && At(j1, FAMILY + ["lang"]) == Some(Text(language))
      && At(j1, FAMILY + ["variant"]) == Some(if v.variant.Some? then Text(v.variant.value) else Null)
      && At(j1, FAMILY + ["dialect"]) == Some(Text(dialect))
      && At(j1, VOICE + ["established"]) == Some(Bool(true))
  {
    var (language, dialect) := SplitLanguage(v.language);
    VoicePut(j, v);
    var j1 := Put(j, FAMILY, "name", Text(v.name)).value;
    var j2 := Put(j1, FAMILY, "lang", Text(language)).value;
    var j3 := Put(j2, FAMILY, "variant", OrNull(v.variant)).value;
    var j4 := Put(j3, FAMILY, "dialect", Text(dialect)).value;
    PutThenAt(j1, FAMILY, "lang", Text(language));
    Siblings(j2, FAMILY, "variant", OrNull(v.variant), "lang");
    Siblings(j3, FAMILY, "dialect", Text(dialect), "lang");
    PutThenAt(j2, FAMILY, "variant", OrNull(v.variant));
    Siblings(j3, FAMILY, "dialect", Text(dialect), "variant");
    PutThenAt(j3, FAMILY, "dialect", Text(dialect));
    EstablishedIsApart(j4, "lang");
    EstablishedIsApart(j4, "variant");
    EstablishedIsApart(j4, "dialect");
    PutThenAt(j4, VOICE, "established", Bool(true));
  }

  lemma EstablishedIsApart(j: Json, key: string)
    requires Put(j, VOICE, "established", Bool(true)).Some?
    ensures At(Put(j, VOICE, "established", Bool(true)).value, FAMILY + [key]) == At(j, FAMILY + [key])
  {
    assert (VOICE + ["established"])[4] == "established" && (FAMILY + [key])[4] == "family";
    PutElsewhere(j, VOICE, "established", Bool(true), FAMILY + [key]);
  }

  /** The voice update succeeds exactly when its first insertion can. */
  lemma VoiceSucceedsIff(j: Json, v: Voice)
    ensures WithVoice(j, v).Some? <==>
      forall k :: 0 <= k <= |FAMILY| ==> At(j, FAMILY[..k]).Some? ==> At(j, FAMILY[..k]).value.Object?
  {
    PutSucceedsIff(j, FAMILY, "name", Text(v.name));
    if Put(j, FAMILY, "name", Text(v.name)).Some? {
      var j1 := Put(j, FAMILY, "name", Text(v.name)).value;
      AgainAtFamily(j, "name", Text(v.name), "lang", Text(SplitLanguage(v.language).0));
      var j2 := Put(j1, FAMILY, "lang", Text(SplitLanguage(v.language).0)).value;
      AgainAtFamily(j1, "lang", Text(SplitLanguage(v.language).0), "variant", OrNull(v.variant));
      var j3 := Put(j2, FAMILY, "variant", OrNull(v.variant)).value;
      AgainAtFamily(j2, "variant", OrNull(v.variant), "dialect", Text(SplitLanguage(v.language).1));
      AgainAtFamily(j3, "dialect", Text(SplitLanguage(v.language).1), "established", Bool(true));
    }
  }

  lemma AgainAtFamily(j: Json, key: string, value: Json, next: string, value': Json)
    requires Put(j, FAMILY, key, value).Some?
    ensures Put(Put(j, FAMILY, key, value).value, FAMILY, next, value').Some?
    ensures Put(Put(j, FAMILY, key, value).value, VOICE, next, value').Some?
  {
    var j1 := Put(j, FAMILY, key, value).value;
    forall k | 0 <= k <= |FAMILY|
      ensures At(j1, FAMILY[..k]).Some? && At(j1, FAMILY[..k]).value.Object?
    {
      PutAbove(j, FAMILY, key, value, k);
    }
    PutSucceedsIff(j1, FAMILY, next, value');
    assert forall k :: 0 <= k <= |VOICE| ==> VOICE[..k] == FAMILY[..k];
    PutSucceedsIff(j1, VOICE, next, value');
  }

  lemma {:induction false} AtAbove(j: Json, path: Path, key: string)
    ensures At(j, path + [key]).Some? ==> At(j, path).Some?
    decreases |path|
  {
    if path != [] {
      assert (path + [key])[1..] == path[1..] + [key];
      if j.Object? && path[0] in j.fields {
        AtAbove(j.fields[path[0]], path[1..], key);
      }
    }
  }

  /** The speech switch is stored, and nothing the manager shows is touched. */
  lemma EnabledPut(j: Json, enabled: bool)
    requires WithEnabled(j, enabled).Some?
    ensures var j1 := WithEnabled(j, enabled).value;
      && At(j1, ["general", "enableSpeech"]) == Some(Bool(enabled))
      && At(j1, VOICE) == At(j, VOICE) && SameNumbers(j, j1) && SameName(j, j1)
  {
    PutThenAt(j, ["general"], "enableSpeech", Bool(enabled));
    assert ["general"] + ["enableSpeech"] == ["general", "enableSpeech"];
    var written := ["general"] + ["enableSpeech"];
    assert written[0] == "general" && VOICE[0] == "profiles" && FAMILY[0] == "profiles";
    PutElsewhere(j, ["general"], "enableSpeech", Bool(enabled), VOICE);
    PutElsewhere(j, ["general"], "enableSpeech", Bool(enabled), VOICE + [PITCH_SETTING]);
    PutElsewhere(j, ["general"], "enableSpeech", Bool(enabled), VOICE + [RATE_SETTING]);
    PutElsewhere(j, ["general"], "enableSpeech", Bool(enabled), VOICE + [VOLUME_SETTING]);
    PutElsewhere(j, ["general"], "enableSpeech", Bool(enabled), FAMILY + ["name"]);
  }

  // ----- the fields always show what the file says -----

  /** The manager shows what a restarted one would read from the file. */
  predicate Synced(s: Shown, file: Json) { s == Loaded(file, INITIAL) }

  lemma NothingBelow(j: Json)
    requires At(j, VOICE).None?
    ensures At(j, VOICE + [PITCH_SETTING]).None? && At(j, VOICE + [RATE_SETTING]).None?
    ensures At(j, VOICE + [VOLUME_SETTING]).None? && At(j, FAMILY + ["name"]).None?
  {
    AtAbove(j, VOICE, PITCH_SETTING);
    AtAbove(j, VOICE, RATE_SETTING);
    AtAbove(j, VOICE, VOLUME_SETTING);
    AtAbove(j, VOICE, "family");
    AtAbove(j, FAMILY, "name");
  }

  lemma OptionPut(j: Json, option: string, value: real)
    requires WithOption(j, option, value).Some?
    ensures var j1 := WithOption(j, option, value).value;
      && At(j1, VOICE).Some? && SameName(j, j1)
      && At(j1, VOICE + [option]) == Some(Number(value))
      && forall other :: other != option ==> At(j1, VOICE + [other]) == At(j, VOICE + [other])
  {
    PathsApart(option);
    PutThenAt(j, VOICE, option, Number(value));
    PutAbove(j, VOICE, option, Number(value), 4);
    assert VOICE[..4] == VOICE;
    forall other | other != option
      ensures At(WithOption(j, option, value).value, VOICE + [other]) == At(j, VOICE + [other])
    {
      PutElsewhere(j, VOICE, option, Number(value), VOICE + [other]);
    }
    PutElsewhere(j, VOICE, option, Number(value), FAMILY + ["name"]);
  }

  /** Which updates of a number are accepted: the rate up to 100, the pitch and the volume
      up to 10, into a tree in which everything on the way is an object.  The value is
      then stored under the default voice. */
  lemma OptionSucceedsIff(j: Json, option: string, value: real)
    ensures WithOption(j, option, value).Some? <==>
      && (forall k :: 0 <= k <= 4 && At(j, VOICE[..k]).Some? ==> At(j, VOICE[..k]).value.Object?)
      && ((option == "rate" && 0.0 <= value <= 100.0)
          || ((option == "average-pitch" || option == "gain") && 0.0 <= value <= 10.0))
    ensures WithOption(j, option, value).Some? ==>
      At(WithOption(j, option, value).value, ["profiles", "default", "voices", "default", option]) == Some(Number(value))
  {
    PutSucceedsIff(j, VOICE, option, Number(value));
    if WithOption(j, option, value).Some? {
      PutThenAt(j, VOICE, option, Number(value));
      assert VOICE + [option] == ["profiles", "default", "voices", "default", option];
    }
  }

  /** The speech switch is accepted exactly when the tree and its general part, if there
      is one, are objects. */
  lemma EnabledSucceedsIff(j: Json, enabled: bool)
    ensures WithEnabled(j, enabled).Some? <==> j.Object? && ("general" in j.fields ==> j.fields["general"].Object?)
  {
  }

  /** What a manager shows as it starts: the file's numbers where it has numbers and the
      defaults elsewhere, and the name of its voice, if any. */
  lemma LoadedAtStart(j: Json)
    ensures var pitch, rate := At(j, VOICE + ["average-pitch"]), At(j, VOICE + ["rate"]);
      var volume, name := At(j, VOICE + ["gain"]), At(j, VOICE + ["family", "name"]);
      Loaded(j, INITIAL) == Shown(
        if pitch.Some? && pitch.value.Number? then pitch.value.number else 5.0,
        if rate.Some? && rate.value.Number? then rate.value.number else 50.0,
        if volume.Some? && volume.value.Number? then volume.value.number else 10.0,
        if name.None? then "" else if name.value.Text? then name.value.text else "default")
  {
    assert VOICE + ["family", "name"] == FAMILY + ["name"];
    if At(j, VOICE).None? {
      NothingBelow(j);
    }
  }

  /** Reading the file again keeps what it does not mention, except the pitch, and except
      the rate and volume where it has no default voice at all.  What it has in the wrong
      form becomes the default. */
  lemma ReloadedInPlace(j: Json, s: Shown)
    ensures At(j, VOICE + ["average-pitch"]).None? ==> Loaded(j, s).pitch == 5.0
    ensures At(j, VOICE + ["rate"]).None? ==>
      Loaded(j, s).rate == if At(j, VOICE).Some? then s.rate else 50.0
    ensures At(j, VOICE + ["gain"]).None? ==>
      Loaded(j, s).volume == if At(j, VOICE).Some? then s.volume else 10.0
    ensures At(j, VOICE + ["family", "name"]).None? ==> Loaded(j, s).voice == s.voice
    ensures forall found :: At(j, VOICE + ["average-pitch"]) == Some(found) && !found.Number? ==> Loaded(j, s).pitch == 5.0
    ensures forall found :: At(j, VOICE + ["rate"]) == Some(found) && !found.Number? ==> Loaded(j, s).rate == 50.0
    ensures forall found :: At(j, VOICE + ["gain"]) == Some(found) && !found.Number? ==> Loaded(j, s).volume == 10.0
  {
    assert VOICE + ["family", "name"] == FAMILY + ["name"];
    if At(j, VOICE).None? {
      NothingBelow(j);
    }
  }

  function ShownOption(s: Shown, option: string): real {
    if option == PITCH_SETTING then s.pitch else if option == RATE_SETTING then s.rate else s.volume
  }

  /** After a successful option update that option reads back as the value written, from
      any tree and over any fields.  The rest reads as before; where the default voice
      had to be created, nothing but the pitch is reset any more. */
  lemma OptionIsLoaded(j: Json, option: string, value: real, s: Shown)
    requires WithOption(j, option, value).Some?
    ensures var j1 := WithOption(j, option, value).value;
      && ShownOption(Loaded(j1, s), option) == value
      && Loaded(j1, s) ==
           ShownWith(if At(j, VOICE).Some? then Loaded(j, s) else s.(pitch := PITCH_DEFAULT), option, value)
  {
    OptionPut(j, option, value);
    if At(j, VOICE).None? {
      NothingBelow(j);
    }
  }

  /** A restart after a successful update reads what the manager then shows. */
  lemma OptionShows(s: Shown, j: Json, option: string, value: real)
    requires Synced(s, j) && WithOption(j, option, value).Some?
    ensures Synced(ShownWith(s, option, value), WithOption(j, option, value).value)
  {
    OptionPut(j, option, value);
    if At(j, VOICE).None? {
      NothingBelow(j);
    }
  }

  lemma VoiceShows(s: Shown, j: Json, v: Voice)
    requires Synced(s, j) && WithVoice(j, v).Some?
    ensures Synced(s.(voice := v.name), WithVoice(j, v).value)
  {
    VoicePut(j, v);
    if At(j, VOICE).None? {
      NothingBelow(j);
    }
  }

  /** Something that exists on the way to a place is not an object. */
  ghost predicate Blocked(file: Json, path: Path) {
    exists k :: 0 <= k <= |path| && At(file, path[..k]).Some? && !At(file, path[..k]).value.Object?
  }

  /** The operation would change what the manager shows: it can be carried out, and its
      value is not the one shown. */
  ghost predicate Changes(s: Shown, file: Json, op: Operation) {
    match op
    case OptionTo(option, value, _) =>
      IsValidOption(option, value) && !Blocked(file, VOICE) && ShownOption(s, option) != value
    case VoiceTo(v, _) => !Blocked(file, FAMILY) && s.voice != v.name
    case EnabledTo(_, _) => false
  }

  lemma ChangesWhen(s: Shown, file: Json, op: Operation)
    ensures match op
      case OptionTo(option, value, _) => WithOption(file, option, value).Some? <==>
        IsValidOption(option, value) && !Blocked(file, VOICE)
      case VoiceTo(v, _) => WithVoice(file, v).Some? <==> !Blocked(file, FAMILY)
      case EnabledTo(_, _) => true
  {
    match op {
      case OptionTo(option, value, _) => PutSucceedsIff(file, VOICE, option, Number(value));
      case VoiceTo(v, _) => VoiceSucceedsIff(file, v);
      case EnabledTo(_, _) =>
    }
  }

  /** An operation on fields in step with the file keeps them in step exactly when it is
      not a change whose write took effect but was reported as failed. */
  lemma StaysSyncedIff(s: Shown, file: Json, op: Operation)
    requires Synced(s, file)
    ensures Synced(Apply(s, file, op).0, Apply(s, file, op).1) <==> !(op.write.Lost? && Changes(s, file, op))
  {
    ChangesWhen(s, file, op);
    match op {
      case OptionTo(option, value, _) =>
        if WithOption(file, option, value).Some? {
          OptionShows(s, file, option, value);
        }
      case VoiceTo(v, _) =>
        if WithVoice(file, v).Some? {
          VoiceShows(s, file, v);
        }
      case EnabledTo(enabled, _) =>
        if WithEnabled(file, enabled).Some? {
          EnabledPut(file, enabled);
        }
    }
  }

  function ApplyAll(s: Shown, file: Json, ops: seq<Operation>): (Shown, Json)
    decreases |ops|
  {
    if ops == [] then (s, file)
    else
      var (s1, file1) := ApplyAll(s, file, ops[..|ops| - 1]);
      Apply(s1, file1, ops[|ops| - 1])
  }

  ghost predicate NoneMisreported(s: Shown, file: Json, ops: seq<Operation>)
    decreases |ops|
  {
    ops == [] ||
    (var n := |ops| - 1;
     var (s1, file1) := ApplyAll(s, file, ops[..n]);
     NoneMisreported(s, file, ops[..n]) && !(ops[n].write.Lost? && Changes(s1, file1, ops[n])))
  }

  ghost predicate AlwaysSynced(s: Shown, file: Json, ops: seq<Operation>)
    decreases |ops|
  {
    && (var (s1, file1) := ApplyAll(s, file, ops); Synced(s1, file1))
    && (ops != [] ==> AlwaysSynced(s, file, ops[..|ops| - 1]))
  }

  /** For any tree to begin with and any operations: at every moment the manager shows what
      a restart would read from the file, exactly when no change was misreported. */
  lemma {:induction false} AlwaysSyncedIff(file: Json, ops: seq<Operation>)
    ensures AlwaysSynced(Loaded(file, INITIAL), file, ops) <==> NoneMisreported(Loaded(file, INITIAL), file, ops)
    decreases |ops|
  {
    if ops != [] {
      var n := |ops| - 1;
      AlwaysSyncedIff(file, ops[..n]);
      var (s1, file1) := ApplyAll(Loaded(file, INITIAL), file, ops[..n]);
      if AlwaysSynced(Loaded(file, INITIAL), file, ops[..n]) {
        assert Synced(s1, file1);
        StaysSyncedIff(s1, file1, ops[n]);
      }
    }
  }

  /** For any tree to begin with and any operations, refused ones and malformed trees
      included: what the manager shows is what a restart would read from the file, and
      reading it again in place would change nothing. */
  lemma {:induction false} FieldsShowTheFile(file: Json, ops: seq<Operation>)
    requires forall i :: 0 <= i < |ops| ==> !ops[i].write.Lost?
    ensures var (s1, file1) := ApplyAll(Loaded(file, INITIAL), file, ops);
      s1 == Loaded(file1, INITIAL) && s1 == Loaded(file1, s1)
    decreases |ops|
  {
    if ops != [] {
      var n := |ops| - 1;
      FieldsShowTheFile(file, ops[..n]);
      var (s1, file1) := ApplyAll(Loaded(file, INITIAL), file, ops[..n]);
      StaysSyncedIff(s1, file1, ops[n]);
    }
  }

  // ----- ranges -----

  /** The numbers a manager may show. */
  predicate InRange(s: Shown) {
    0.0 <= s.pitch <= 10.0 && 0.0 <= s.rate <= 100.0 && 0.0 <= s.volume <= 10.0
  }

  lemma ApplyStaysInRange(s: Shown, file: Json, op: Operation)
    requires InRange(s) && InRange(Loaded(file, INITIAL))
    ensures var (s1, file1) := Apply(s, file, op); InRange(s1) && InRange(Loaded(file1, INITIAL))
  {
    match op {
      case OptionTo(option, value, _) =>
        OptionSucceedsIff(file, option, value);
        if WithOption(file, option, value).Some? {
          OptionIsLoaded(file, option, value, INITIAL);
        }
      case VoiceTo(v, _) =>
        if WithVoice(file, v).Some? {
          VoicePut(file, v);
          if At(file, VOICE).None? {
            NothingBelow(file);
          }
        }
      case EnabledTo(enabled, _) =>
        if WithEnabled(file, enabled).Some? {
          EnabledPut(file, enabled);
        }
    }
  }

  /** From a file whose numbers are in their ranges, no run of operations, whatever fails,
      leads to a number out of range, shown or stored. */
  lemma {:induction false} NumbersStayInRange(file: Json, ops: seq<Operation>)
    requires InRange(Loaded(file, INITIAL))
    ensures var (s1, file1) := ApplyAll(Loaded(file, INITIAL), file, ops);
      InRange(s1) && InRange(Loaded(file1, INITIAL))
    decreases |ops|
  {
    if ops != [] {
      var n := |ops| - 1;
      NumbersStayInRange(file, ops[..n]);
      var (s1, file1) := ApplyAll(Loaded(file, INITIAL), file, ops[..n]);
      ApplyStaysInRange(s1, file1, ops[n]);
    }
  }

  /** What an accepted update shows, setting by setting. */
  lemma UpdateShows(s: Shown, file: Json, value: real)
    ensures WithOption(file, "average-pitch", value).Some? ==>
      Apply(s, file, OptionTo("average-pitch", value, Done)).0 == s.(pitch := value)
    ensures WithOption(file, "rate", value).Some? ==>
      Apply(s, file, OptionTo("rate", value, Done)).0 == s.(rate := value)
    ensures WithOption(file, "gain", value).Some? ==>
      Apply(s, file, OptionTo("gain", value, Done)).0 == s.(volume := value)
  {
  }
}
