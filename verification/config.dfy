/**
 Config: the recorder's user settings, their defaults, and their persistence
 in the user-defaults store. Booleans and the auto-start speed are stored
 as they are; the video quality and the g-sensor sensibility are stored as
 their index in a fixed list of choices.
 */
module Config {
  import opened Wrappers

  /** The three capture presets offered: hd1920x1080, hd1280x720 and vga640x480. */
  datatype Quality = High | Medium | Low

  const GSensorStrong: real := 4.0
  const GSensorMedium: real := 2.8
  const GSensorWeak: real := 1.8
  const DefaultAutoStartSpeed: real := 10.0

  const GSensorSensibilityKey: string := "GSenserSensibility"
  const AutoStartEnabledKey: string := "AutoStartEnabled"
  const AutoStopEnabledKey: string := "AutoStopEnabled"
  const VideoQualityKey: string := "VideoQuality"
  const RecordAudioKey: string := "RecordAudio"
  const AutoStartSpeedKey: string := "AutoStartSpeed"

  const AvailableVideoQualities: seq<Quality> := [High, Medium, Low]
  const AvailableGSensorSensibilities: seq<real> := [GSensorStrong, GSensorMedium, GSensorWeak]

  /** Speeds are metres per second; sensibilities are accelerations in g. */
  datatype Config = Config(
    gsensorSensibility: real,
    autoStartEnabled: bool,
    autoStopEnabled: bool,
    autoStartSpeed: real,
    recordAudio: bool,
    videoQuality: Quality)

  /** The property initialisers of a freshly created Config. */
  const Fresh: Config := Config(GSensorStrong, false, false, DefaultAutoStartSpeed, false, Medium)

  /** A value held by the user-defaults store. */
  datatype Value = BoolValue(b: bool) | DoubleValue(d: real) | IntValue(i: int)

  type Store = map<string, Value>

  /** UserDefaults.bool(forKey:): false when the key is absent. */
  function BoolFor(store: Store, key: string): bool {
    key in store && store[key] == BoolValue(true)
  }

  /** UserDefaults.integer(forKey:): 0 when the key is absent. */
  function IntegerFor(store: Store, key: string): int {
    if key in store && store[key].IntValue? then store[key].i else 0
  }

  /** UserDefaults.double(forKey:): 0.0 when the key is absent. */
  function DoubleFor(store: Store, key: string): real {
    if key in store && store[key].DoubleValue? then store[key].d else 0.0
  }

  /** UserDefaults.double(forKey:defaultValue:): the stored double, with 0.0
      standing for "use the default". */
  function DoubleOr(store: Store, key: string, defaultValue: real): (r: real)
    ensures key in store && store[key].DoubleValue? && store[key].d != 0.0 ==> r == store[key].d
    ensures !(key in store && store[key].DoubleValue? && store[key].d != 0.0) ==> r == defaultValue
  {
    var value := DoubleFor(store, key);
    if value == 0.0 then defaultValue else value
  }

  /** Every quality is one of the offered choices. */
  lemma QualityOffered(q: Quality)
    ensures q in AvailableVideoQualities
  {
    match q
    case High => assert AvailableVideoQualities[0] == q;
    case Medium => assert AvailableVideoQualities[1] == q;
    case Low => assert AvailableVideoQualities[2] == q;
  }

  /** Array.index(of:): the first position of `x`, if any. */
  function IndexOf<T(==)>(s: seq<T>, x: T): (r: Option<nat>)
    ensures r.Some? ==> r.value < |s| && s[r.value] == x
    ensures r.Some? ==> forall i :: 0 <= i < r.value ==> s[i] != x
    ensures r.None? ==> x !in s
  {
    if |s| == 0 then None
    else if s[0] == x then Some(0)
    else match IndexOf(s[1..], x)
      case None => None
      case Some(i) => Some(i + 1)
  }

  /** UserDefaults.set(_:forKey:) with an optional: a missing value removes the key. */
  function SetOptional(store: Store, key: string, v: Option<Value>): Store {
    match v
    case Some(x) => store[key := x]
    case None => store - {key}
  }

  /** The indices that `load` reads must lie inside the lists; the source
      traps on any other. */
  predicate Loadable(store: Store) {
    && 0 <= IntegerFor(store, VideoQualityKey) < |AvailableVideoQualities|
    && 0 <= IntegerFor(store, GSensorSensibilityKey) < |AvailableGSensorSensibilities|
  }

  /** A non-zero double is stored under the auto-start speed key. */
  predicate StoredSpeed(store: Store) {
    AutoStartSpeedKey in store && store[AutoStartSpeedKey].DoubleValue? && store[AutoStartSpeedKey].d != 0.0
  }

  /** Config.load. */
  function Load(store: Store): (c: Config)
    requires Loadable(store)
    ensures c.autoStartEnabled <==> AutoStartEnabledKey in store && store[AutoStartEnabledKey] == BoolValue(true)
    ensures c.autoStopEnabled <==> AutoStopEnabledKey in store && store[AutoStopEnabledKey] == BoolValue(true)
    ensures c.recordAudio <==> RecordAudioKey in store && store[RecordAudioKey] == BoolValue(true)
    ensures c.autoStartSpeed != 0.0
    ensures c.autoStartSpeed == (if StoredSpeed(store) then store[AutoStartSpeedKey].d else DefaultAutoStartSpeed)
    ensures c.videoQuality == AvailableVideoQualities[IntegerFor(store, VideoQualityKey)]
    ensures c.gsensorSensibility == AvailableGSensorSensibilities[IntegerFor(store, GSensorSensibilityKey)]
    ensures VideoQualityKey !in store ==> c.videoQuality == High
    ensures GSensorSensibilityKey !in store ==> c.gsensorSensibility == GSensorStrong
  {
    Config(
      gsensorSensibility := AvailableGSensorSensibilities[IntegerFor(store, GSensorSensibilityKey)],
      autoStartEnabled := BoolFor(store, AutoStartEnabledKey),
      autoStopEnabled := BoolFor(store, AutoStopEnabledKey),
      autoStartSpeed := DoubleOr(store, AutoStartSpeedKey, DefaultAutoStartSpeed),
      recordAudio := BoolFor(store, RecordAudioKey),
      videoQuality := AvailableVideoQualities[IntegerFor(store, VideoQualityKey)])
  }

  /** Config.save. */
  function Save(c: Config, store: Store): (s: Store)
    ensures forall k :: k in store && k !in {GSensorSensibilityKey, AutoStartEnabledKey, AutoStopEnabledKey,
                                             VideoQualityKey, RecordAudioKey, AutoStartSpeedKey}
                        ==> k in s && s[k] == store[k]
    ensures forall k :: k in s ==> k in store || k in {GSensorSensibilityKey, AutoStartEnabledKey, AutoStopEnabledKey,
                                                        VideoQualityKey, RecordAudioKey, AutoStartSpeedKey}
    ensures AutoStartEnabledKey in s && s[AutoStartEnabledKey] == BoolValue(c.autoStartEnabled)
    ensures AutoStopEnabledKey in s && s[AutoStopEnabledKey] == BoolValue(c.autoStopEnabled)
    ensures AutoStartSpeedKey in s && s[AutoStartSpeedKey] == DoubleValue(c.autoStartSpeed)
    ensures RecordAudioKey in s && s[RecordAudioKey] == BoolValue(c.recordAudio)
    ensures VideoQualityKey in s && s[VideoQualityKey].IntValue?
    ensures VideoQualityKey in s ==> var i := s[VideoQualityKey].i;
              0 <= i < |AvailableVideoQualities| && AvailableVideoQualities[i] == c.videoQuality
    ensures c.gsensorSensibility in AvailableGSensorSensibilities <==> GSensorSensibilityKey in s
    ensures GSensorSensibilityKey in s ==> s[GSensorSensibilityKey].IntValue? && var i := s[GSensorSensibilityKey].i;
              0 <= i < |AvailableGSensorSensibilities| && AvailableGSensorSensibilities[i] == c.gsensorSensibility
  {
    var s1 := store[AutoStartEnabledKey := BoolValue(c.autoStartEnabled)]
                   [AutoStopEnabledKey := BoolValue(c.autoStopEnabled)]
                   [AutoStartSpeedKey := DoubleValue(c.autoStartSpeed)]
                   [RecordAudioKey := BoolValue(c.recordAudio)];
    var index := IndexOf(AvailableGSensorSensibilities, c.gsensorSensibility);
    var s2 := SetOptional(s1, GSensorSensibilityKey, if index.Some? then Some(IntValue(index.value)) else None);
    QualityOffered(c.videoQuality);
    var index' := IndexOf(AvailableVideoQualities, c.videoQuality);
    SetOptional(s2, VideoQualityKey, if index'.Some? then Some(IntValue(index'.value)) else None)
  }

  /** Whatever was saved can be loaded. */
  lemma SaveIsLoadable(c: Config, store: Store)
    ensures Loadable(Save(c, store))
  {
  }

  /** What `load` gives back after `save`: the booleans and the quality
      exactly, the speed unless it was 0 (which reads back as the default),
      and the sensibility if it is one of the offered values (otherwise the
      key is removed and the first choice, Strong, comes back). */
  lemma SaveLoadRoundTrip(c: Config, store: Store)
    ensures Loadable(Save(c, store)) && Load(Save(c, store)) == c.(
      autoStartSpeed := if c.autoStartSpeed == 0.0 then DefaultAutoStartSpeed else c.autoStartSpeed,
      gsensorSensibility := if c.gsensorSensibility in AvailableGSensorSensibilities then c.gsensorSensibility
                            else GSensorStrong)
  {
    SaveIsLoadable(c, store);
  }

  /** A config with an offered sensibility and a non-zero speed survives save and load unchanged. */
  lemma SaveLoadIdentity(c: Config, store: Store)
    requires c.gsensorSensibility in AvailableGSensorSensibilities && c.autoStartSpeed != 0.0
    ensures Loadable(Save(c, store)) && Load(Save(c, store)) == c
  {
    SaveLoadRoundTrip(c, store);
  }

  /** Loading an empty store does not give the fresh config: the quality
      index 0 selects High, where a fresh Config has Medium. */
  lemma LoadEmptyStore()
    ensures Loadable(map[])
    ensures Load(map[]) == Config(GSensorStrong, false, false, DefaultAutoStartSpeed, false, High)
    ensures Load(map[]) != Fresh
  {
  }
}
