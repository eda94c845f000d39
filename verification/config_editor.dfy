/** The plugin's configuration record and its key-indexed editor: typed reads and
    writes, the whole-record dictionary, the form layout and the fallback on load. */
module ConfigEditor {
  import opened Common

  /** The thirteen persisted settings of the recognizer plugin. */
  datatype Config = Config(
    model: string,
    encoder: string,
    decoder: string,
    joiner: string,
    tokens: string,
    enablePunctuation: bool,
    punctuationModel: string,
    enableMeetingMode: bool,
    segmentationModel: string,
    embeddingModel: string,
    numClusters: int,
    useClusteringThreshold: bool,
    clusteringThreshold: real)

  /** A freshly constructed configuration. */
  const DefaultConfig: Config := Config(
    "",
    "models\\encoder.onnx",
    "models\\decoder.onnx",
    "models\\joiner.onnx",
    "models\\tokens.txt",
    true,
    "models\\punctuation.onnx",
    false,
    "models\\segmentation.onnx",
    "models\\speaker-embedding.onnx",
    5,
    false,
    0.5)

  const KeyModel := "model"
  const KeyEncoder := "encoder"
  const KeyDecoder := "decoder"
  const KeyJoiner := "joiner"
  const KeyTokens := "tokens"
  const KeyEnablePunctuation := "enable_punctuation"
  const KeyPunctuationModel := "punctuation_model"
  const KeyEnableMeetingMode := "enable_meeting_mode"
  const KeySegmentationModel := "segmentation_model"
  const KeyEmbeddingModel := "embedding_model"
  const KeyNumClusters := "num_clusters"
  const KeyUseClusteringThreshold := "use_clustering_threshold"
  const KeyClusteringThreshold := "clustering_threshold"

  /** The serialized names of the settings, in declaration order. */
  /** The four model-file paths, used when no named model is chosen. */
  const ModelFileKeys: seq<string> := [KeyEncoder, KeyDecoder, KeyJoiner, KeyTokens]

  /** The punctuation and meeting-mode switches. */
  const SwitchKeys: seq<string> := [KeyEnablePunctuation, KeyPunctuationModel, KeyEnableMeetingMode]

  /** The speaker-diarization settings of meeting mode. */
  const MeetingKeys: seq<string> :=
    [KeySegmentationModel, KeyEmbeddingModel, KeyNumClusters, KeyUseClusteringThreshold, KeyClusteringThreshold]

  const Keys: seq<string> := [KeyModel] + ModelFileKeys + SwitchKeys + MeetingKeys

  /** A boxed value crossing the editor interface. `DoubleValue` also stands for the
      decimal a numeric form control produces. */
  datatype Value =
    | StrValue(s: string)
    | BoolValue(b: bool)
    | IntValue(i: int)
    | DoubleValue(r: real)

  /** The exceptions a write can raise before it stores anything. */
  datatype SetError = InvalidCast | Overflow | FormatError

  /** The result of a successful write: the new record and whether the editor
      raised its form-items-updated event. */
  datatype Edit = Edit(config: Config, formItemsUpdated: bool)

  const Int32Min: int := -0x8000_0000
  const Int32Max: int := 0x7fff_ffff

  /** Rounding to the nearest integer, ties to the even neighbour. */
  function RoundHalfEven(r: real): (n: int)
    ensures -0.5 <= n as real - r <= 0.5
    ensures (n as real - r == 0.5 || n as real - r == -0.5) ==> n % 2 == 0
  {
    var f := r.Floor;
    var frac := r - f as real;
    if frac < 0.5 then f
    else if frac > 0.5 then f + 1
    else if f % 2 == 0 then f
    else f + 1
  }

  /** A reference cast: `(string)value`. */
  function CastString(v: Value): Result<string, SetError> {
    if v.StrValue? then Ok(v.s) else Err(InvalidCast)
  }

  /** An unboxing cast: `(bool)value`. */
  function CastBool(v: Value): Result<bool, SetError> {
    if v.BoolValue? then Ok(v.b) else Err(InvalidCast)
  }

  /** Conversion to a 32-bit integer: booleans become 0 or 1, fractions round half to even,
      anything outside the 32-bit range overflows. */
  function ToInt32(v: Value): (r: Result<int, SetError>)
    ensures r.Ok? ==> Int32Min <= r.value <= Int32Max
    ensures v.IntValue? && Int32Min <= v.i <= Int32Max ==> r == Ok(v.i)
    ensures v.DoubleValue? && r.Ok? ==> -0.5 <= r.value as real - v.r <= 0.5
    ensures v.BoolValue? ==> r == Ok(if v.b then 1 else 0)
  {
    match v
    case IntValue(i) => if Int32Min <= i <= Int32Max then Ok(i) else Err(Overflow)
    case DoubleValue(x) =>
      var n := RoundHalfEven(x);
      if Int32Min <= n <= Int32Max then Ok(n) else Err(Overflow)
    case BoolValue(b) => Ok(if b then 1 else 0)
    case StrValue(_) => Err(FormatError)
  }

  /** Which numbers convert: an integer exactly when it is in the 32-bit range, a double
      exactly when it rounds into that range, ties going to the even neighbour. Every
      failure other than a string's is an overflow. */
  lemma ToInt32Range(v: Value)
    ensures v.IntValue? ==> (ToInt32(v).Ok? <==> Int32Min <= v.i <= Int32Max)
    ensures v.DoubleValue? ==> (ToInt32(v).Ok? <==> -2147483648.5 <= v.r < 2147483647.5)
    ensures v.DoubleValue? && ToInt32(v).Ok? ==>
      (ToInt32(v).value as real - v.r == 0.5 || v.r - ToInt32(v).value as real == 0.5) ==>
      ToInt32(v).value % 2 == 0
    ensures ToInt32(v).Err? && !v.StrValue? ==> ToInt32(v).error == Overflow
  {
  }

  /** Conversion to a double: integers widen, booleans become 0 or 1. */
  function ToDouble(v: Value): (r: Result<real, SetError>)
    ensures v.IntValue? ==> r == Ok(v.i as real)
    ensures v.DoubleValue? ==> r == Ok(v.r)
    ensures v.BoolValue? ==> r == Ok(if v.b then 1.0 else 0.0)
    ensures r.Err? <==> v.StrValue?
  {
    match v
    case IntValue(i) => Ok(i as real)
    case DoubleValue(x) => Ok(x)
    case BoolValue(b) => Ok(if b then 1.0 else 0.0)
    case StrValue(_) => Err(FormatError)
  }

  /** Reads one setting by key; an unknown key reads as the empty string. */
  function GetValue(c: Config, key: string): Value {
    if key == KeyModel then StrValue(c.model)
    else if key == KeyEncoder then StrValue(c.encoder)
    else if key == KeyDecoder then StrValue(c.decoder)
    else if key == KeyJoiner then StrValue(c.joiner)
    else if key == KeyTokens then StrValue(c.tokens)
    else if key == KeyEnablePunctuation then BoolValue(c.enablePunctuation)
    else if key == KeyPunctuationModel then StrValue(c.punctuationModel)
    else if key == KeyEnableMeetingMode then BoolValue(c.enableMeetingMode)
    else if key == KeySegmentationModel then StrValue(c.segmentationModel)
    else if key == KeyEmbeddingModel then StrValue(c.embeddingModel)
    else if key == KeyNumClusters then IntValue(c.numClusters)
    else if key == KeyUseClusteringThreshold then BoolValue(c.useClusteringThreshold)
    else if key == KeyClusteringThreshold then DoubleValue(c.clusteringThreshold)
    else StrValue("")
  }

  /** Writes one setting by key. The keys are distinct, so of the editor's chain of
      `if`s at most one fires; an unknown key changes nothing. A failed cast raises
      before anything is stored or any event is raised. */
  function SetValue(c: Config, key: string, v: Value): Result<Edit, SetError> {
    if key == KeyModel then
      match CastString(v)
      case Ok(s) => Ok(Edit(c.(model := s), true))
      case Err(e) => Err(e)
    else if key == KeyEncoder then
      match CastString(v)
      case Ok(s) => Ok(Edit(c.(encoder := s), false))
      case Err(e) => Err(e)
    else if key == KeyDecoder then
      match CastString(v)
      case Ok(s) => Ok(Edit(c.(decoder := s), false))
      case Err(e) => Err(e)
    else if key == KeyJoiner then
      match CastString(v)
      case Ok(s) => Ok(Edit(c.(joiner := s), false))
      case Err(e) => Err(e)
    else if key == KeyTokens then
      match CastString(v)
      case Ok(s) => Ok(Edit(c.(tokens := s), false))
      case Err(e) => Err(e)
    else if key == KeyEnablePunctuation then
      match CastBool(v)
      case Ok(b) => Ok(Edit(c.(enablePunctuation := b), false))
      case Err(e) => Err(e)
    else if key == KeyPunctuationModel then
      match CastString(v)
      case Ok(s) => Ok(Edit(c.(punctuationModel := s), false))
      case Err(e) => Err(e)
    else if key == KeyEnableMeetingMode then
      match CastBool(v)
      case Ok(b) => Ok(Edit(c.(enableMeetingMode := b), true))
      case Err(e) => Err(e)
    else if key == KeySegmentationModel then
      match CastString(v)
      case Ok(s) => Ok(Edit(c.(segmentationModel := s), false))
      case Err(e) => Err(e)
    else if key == KeyEmbeddingModel then
      match CastString(v)
      case Ok(s) => Ok(Edit(c.(embeddingModel := s), false))
      case Err(e) => Err(e)
    else if key == KeyNumClusters then
      match ToInt32(v)
      case Ok(n) => Ok(Edit(c.(numClusters := n), false))
      case Err(e) => Err(e)
    else if key == KeyUseClusteringThreshold then
      match CastBool(v)
      case Ok(b) => Ok(Edit(c.(useClusteringThreshold := b), false))
      case Err(e) => Err(e)
    else if key == KeyClusteringThreshold then
      match ToDouble(v)
      case Ok(x) => Ok(Edit(c.(clusteringThreshold := x), false))
      case Err(e) => Err(e)
    else Ok(Edit(c, false))
  }

  /** How a key's value is converted on the way in. */
  datatype Kind = StringKind | BoolKind | IntKind | DoubleKind | UnknownKind

  function KindOf(key: string): Kind {
    if key in {KeyModel, KeyEncoder, KeyDecoder, KeyJoiner, KeyTokens, KeyPunctuationModel,
               KeySegmentationModel, KeyEmbeddingModel} then StringKind
    else if key in {KeyEnablePunctuation, KeyEnableMeetingMode, KeyUseClusteringThreshold} then BoolKind
    else if key == KeyNumClusters then IntKind
    else if key == KeyClusteringThreshold then DoubleKind
    else UnknownKind
  }

  /** The value a key holds after `v` was written to it successfully. */
  function Stored(key: string, v: Value): Result<Value, SetError> {
    match KindOf(key)
    case StringKind => if v.StrValue? then Ok(v) else Err(InvalidCast)
    case BoolKind => if v.BoolValue? then Ok(v) else Err(InvalidCast)
    case IntKind => (match ToInt32(v) case Ok(n) => Ok(IntValue(n)) case Err(e) => Err(e))
    case DoubleKind => (match ToDouble(v) case Ok(x) => Ok(DoubleValue(x)) case Err(e) => Err(e))
    case UnknownKind => Err(InvalidCast)
  }

  lemma KeysKnown(key: string)
    ensures key in Keys <==> KindOf(key) != UnknownKind
  {
  }

  /** Reading a known key after writing it returns what was written, converted to the key's
      type; the write fails exactly when that conversion fails. */
  lemma GetAfterSet(c: Config, key: string, v: Value)
    requires key in Keys
    ensures SetValue(c, key, v).Ok? <==> Stored(key, v).Ok?
    ensures SetValue(c, key, v).Ok? ==>
      GetValue(SetValue(c, key, v).value.config, key) == Stored(key, v).value
    ensures SetValue(c, key, v).Err? ==> SetValue(c, key, v).error == Stored(key, v).error
  {
    if key == KeyNumClusters {
      assert KindOf(key) == IntKind;
    } else if key == KeyClusteringThreshold {
      assert KindOf(key) == DoubleKind;
    } else if KindOf(key) == StringKind {
      assert CastString(v).Ok? <==> v.StrValue?;
    } else {
      assert KindOf(key) == BoolKind;
    }
  }

  /** A string written to a text setting reads back unchanged. */
  lemma GetAfterSetString(c: Config, key: string, s: string)
    requires KindOf(key) == StringKind
    ensures SetValue(c, key, StrValue(s)).Ok?
    ensures GetValue(SetValue(c, key, StrValue(s)).value.config, key) == StrValue(s)
  {
    GetAfterSet(c, key, StrValue(s));
  }

  /** A key's value depends only on the field behind that key. */
  lemma GetValueFrame(c: Config, d: Config, other: string)
    requires other == KeyModel ==> c.model == d.model
    requires other == KeyEncoder ==> c.encoder == d.encoder
    requires other == KeyDecoder ==> c.decoder == d.decoder
    requires other == KeyJoiner ==> c.joiner == d.joiner
    requires other == KeyTokens ==> c.tokens == d.tokens
    requires other == KeyEnablePunctuation ==> c.enablePunctuation == d.enablePunctuation
    requires other == KeyPunctuationModel ==> c.punctuationModel == d.punctuationModel
    requires other == KeyEnableMeetingMode ==> c.enableMeetingMode == d.enableMeetingMode
    requires other == KeySegmentationModel ==> c.segmentationModel == d.segmentationModel
    requires other == KeyEmbeddingModel ==> c.embeddingModel == d.embeddingModel
    requires other == KeyNumClusters ==> c.numClusters == d.numClusters
    requires other == KeyUseClusteringThreshold ==> c.useClusteringThreshold == d.useClusteringThreshold
    requires other == KeyClusteringThreshold ==> c.clusteringThreshold == d.clusteringThreshold
    ensures GetValue(c, other) == GetValue(d, other)
  {
  }

  /** Writing a key leaves every other key's value as it was. */
  lemma SetChangesOnlyItsKey(c: Config, key: string, v: Value, other: string)
    requires SetValue(c, key, v).Ok?
    requires other != key
    ensures GetValue(SetValue(c, key, v).value.config, other) == GetValue(c, other)
  {
    var e := SetValue(c, key, v).value.config;
    if key == KeyModel {
      assert e == c.(model := CastString(v).value);
      GetValueFrame(e, c, other);
    } else if key == KeyEncoder {
      assert e == c.(encoder := CastString(v).value);
      GetValueFrame(e, c, other);
    } else if key == KeyDecoder {
      assert e == c.(decoder := CastString(v).value);
      GetValueFrame(e, c, other);
    } else if key == KeyJoiner {
      assert e == c.(joiner := CastString(v).value);
      GetValueFrame(e, c, other);
    } else if key == KeyTokens {
      assert e == c.(tokens := CastString(v).value);
      GetValueFrame(e, c, other);
    } else if key == KeyEnablePunctuation {
      assert e == c.(enablePunctuation := CastBool(v).value);
      GetValueFrame(e, c, other);
    } else if key == KeyPunctuationModel {
      assert e == c.(punctuationModel := CastString(v).value);
      GetValueFrame(e, c, other);
    } else {
      SetLaterKeyFrame(c, key, v, other);
    }
  }

  /** The frame property for the keys the editor's `if` chain tests last. */
  lemma SetLaterKeyFrame(c: Config, key: string, v: Value, other: string)
    requires SetValue(c, key, v).Ok?
    requires other != key
    requires key !in {KeyModel, KeyEncoder, KeyDecoder, KeyJoiner, KeyTokens,
                      KeyEnablePunctuation, KeyPunctuationModel}
    ensures GetValue(SetValue(c, key, v).value.config, other) == GetValue(c, other)
  {
    var e := SetValue(c, key, v).value.config;
    if key == KeyEnableMeetingMode {
      assert e == c.(enableMeetingMode := CastBool(v).value);
      GetValueFrame(e, c, other);
    } else if key == KeySegmentationModel {
      assert e == c.(segmentationModel := CastString(v).value);
      GetValueFrame(e, c, other);
    } else if key == KeyEmbeddingModel {
      assert e == c.(embeddingModel := CastString(v).value);
      GetValueFrame(e, c, other);
    } else if key == KeyNumClusters {
      assert e == c.(numClusters := ToInt32(v).value);
      GetValueFrame(e, c, other);
    } else if key == KeyUseClusteringThreshold {
      assert e == c.(useClusteringThreshold := CastBool(v).value);
      GetValueFrame(e, c, other);
    } else if key == KeyClusteringThreshold {
      assert e == c.(clusteringThreshold := ToDouble(v).value);
      GetValueFrame(e, c, other);
    } else {
      assert e == c;
    }
  }

  /** The thirteen keys determine the record: two configurations that read alike on every key are equal. */
  lemma ValuesDetermineConfig(c1: Config, c2: Config)
    requires forall k :: k in Keys ==> GetValue(c1, k) == GetValue(c2, k)
    ensures c1 == c2
  {
    assert GetValue(c1, KeyModel) == GetValue(c2, KeyModel);
    assert GetValue(c1, KeyEncoder) == GetValue(c2, KeyEncoder);
    assert GetValue(c1, KeyDecoder) == GetValue(c2, KeyDecoder);
    assert GetValue(c1, KeyJoiner) == GetValue(c2, KeyJoiner);
    assert GetValue(c1, KeyTokens) == GetValue(c2, KeyTokens);
    assert GetValue(c1, KeyEnablePunctuation) == GetValue(c2, KeyEnablePunctuation);
    assert GetValue(c1, KeyPunctuationModel) == GetValue(c2, KeyPunctuationModel);
    assert GetValue(c1, KeyEnableMeetingMode) == GetValue(c2, KeyEnableMeetingMode);
    assert GetValue(c1, KeySegmentationModel) == GetValue(c2, KeySegmentationModel);
    assert GetValue(c1, KeyEmbeddingModel) == GetValue(c2, KeyEmbeddingModel);
    assert GetValue(c1, KeyNumClusters) == GetValue(c2, KeyNumClusters);
    assert GetValue(c1, KeyUseClusteringThreshold) == GetValue(c2, KeyUseClusteringThreshold);
    assert GetValue(c1, KeyClusteringThreshold) == GetValue(c2, KeyClusteringThreshold);
  }

  /** An unknown key is ignored on write and reads as the empty string. */
  lemma UnknownKeyIgnored(c: Config, key: string, v: Value)
    requires key !in Keys
    ensures SetValue(c, key, v) == Ok(Edit(c, false))
    ensures GetValue(c, key) == StrValue("")
  {
  }

  /** The form-items-updated event is raised exactly for a successful write to the model
      choice or the meeting-mode switch. */
  lemma FormEventKeys(c: Config, key: string, v: Value)
    requires SetValue(c, key, v).Ok?
    ensures SetValue(c, key, v).value.formItemsUpdated <==> (key == KeyModel || key == KeyEnableMeetingMode)
  {
  }

  /** Every setting as a dictionary from key to value. */
  function GetAll(c: Config): (m: map<string, Value>)
    ensures m.Keys == set k | k in Keys
    ensures forall k :: k in m ==> m[k] == GetValue(c, k)
  {
    map[
      KeyModel := StrValue(c.model),
      KeyEncoder := StrValue(c.encoder),
      KeyDecoder := StrValue(c.decoder),
      KeyJoiner := StrValue(c.joiner),
      KeyTokens := StrValue(c.tokens),
      KeyEnablePunctuation := BoolValue(c.enablePunctuation),
      KeyPunctuationModel := StrValue(c.punctuationModel),
      KeyEnableMeetingMode := BoolValue(c.enableMeetingMode),
      KeySegmentationModel := StrValue(c.segmentationModel),
      KeyEmbeddingModel := StrValue(c.embeddingModel),
      KeyNumClusters := IntValue(c.numClusters),
      KeyUseClusteringThreshold := BoolValue(c.useClusteringThreshold),
      KeyClusteringThreshold := DoubleValue(c.clusteringThreshold)]
  }

  /** Loads a serialized configuration; `deserialize` stands for the JSON library and
      yields `None` when it throws, in which case the editor falls back to the defaults. */
  function LoadConfigString(data: string, deserialize: string -> Option<Config>): (c: Config)
    ensures deserialize(data).Some? ==> c == deserialize(data).value
    ensures deserialize(data).None? ==>
      && c.model == "" && c.enablePunctuation && !c.enableMeetingMode
      && c.numClusters == 5 && !c.useClusteringThreshold
      && GetValue(c, KeyClusteringThreshold) == DoubleValue(0.5)
    ensures deserialize(data).None? ==> c == DefaultConfig
  {
    match deserialize(data)
    case Some(loaded) => loaded
    case None => DefaultConfig
  }

  // ---- the configuration form ----

  /** An entry of the model drop-down: the value it selects and its display text. */
  datatype OptionEntry = OptionEntry(id: string, text: string)

  /** A locally installed module as the resource manager lists it. */
  datatype ModuleInfo = ModuleInfo(id: string, name: string, isSherpaOnnxModel: bool)

  /** One control of the configuration form, identified by the setting key it edits. */
  datatype FormItem =
    | OptionItem(key: string, name: string, options: seq<OptionEntry>)
    | FileItem(key: string, name: string)
    | CheckBoxItem(key: string, name: string)
    | NumberItem(key: string, name: string, unit: string, min: int, max: int, isInteger: bool)

  /** Building the option dictionary met two different entries with the same key. */
  datatype FormError = DuplicateOptionKey

  /** The drop-down entry that selects the hand-configured model files ("custom model"). */
  const CustomModelOption: OptionEntry := OptionEntry("", "自定义模型")

  function ModelLabel(m: ModuleInfo): string {
    m.name + " (" + m.id + ")"
  }

  /** One entry per installed sherpa-onnx model, in listing order. */
  function ModelEntries(models: seq<ModuleInfo>): (r: seq<OptionEntry>)
    ensures forall m :: m in models && m.isSherpaOnnxModel ==> OptionEntry(m.id, ModelLabel(m)) in r
    ensures forall e :: e in r ==>
      exists m :: m in models && m.isSherpaOnnxModel && e == OptionEntry(m.id, ModelLabel(m))
  {
    if |models| == 0 then []
    else
      var prev := ModelEntries(models[..|models| - 1]);
      var m := models[|models| - 1];
      assert models == models[..|models| - 1] + [m];
      if m.isSherpaOnnxModel then prev + [OptionEntry(m.id, ModelLabel(m))] else prev
  }

  /** Set union of entries: the first occurrence of each, in order. */
  function Distinct(s: seq<OptionEntry>): (r: seq<OptionEntry>)
    ensures forall e :: e in r <==> e in s
    ensures forall i, j :: 0 <= i < j < |r| ==> r[i] != r[j]
    ensures |s| > 0 ==> |r| > 0 && r[0] == s[0]
  {
    if |s| == 0 then []
    else
      var p := Distinct(s[..|s| - 1]);
      var x := s[|s| - 1];
      assert s == s[..|s| - 1] + [x];
      if x in p then p else p + [x]
  }

  predicate DistinctIds(s: seq<OptionEntry>) {
    forall i, j :: 0 <= i < j < |s| ==> s[i].id != s[j].id
  }

  /** Every entry the drop-down is built from, before duplicates are removed. */
  function Candidates(models: seq<ModuleInfo>): seq<OptionEntry> {
    [CustomModelOption] + ModelEntries(models)
  }

  /** No two different candidate entries share a key. */
  predicate KeysConsistent(s: seq<OptionEntry>) {
    forall e1, e2 :: e1 in s && e2 in s && e1.id == e2.id ==> e1 == e2
  }

  /** The model options: the custom entry united with one entry per installed model, then
      turned into a dictionary, which fails when two different entries share a key. */
  function ModelOptions(models: seq<ModuleInfo>): (r: Result<seq<OptionEntry>, FormError>)
    ensures r.Ok? <==> KeysConsistent(Candidates(models))
    ensures r.Ok? ==> |r.value| > 0 && r.value[0] == CustomModelOption && DistinctIds(r.value)
    ensures r.Ok? ==> forall e :: e in r.value <==> e in Candidates(models)
  {
    var pairs := Distinct(Candidates(models));
    if DistinctIds(pairs) then Ok(pairs)
    else
      assert !KeysConsistent(Candidates(models)) by {
        var i, j :| 0 <= i < j < |pairs| && pairs[i].id == pairs[j].id;
        assert pairs[i] in Candidates(models) && pairs[j] in Candidates(models);
      }
      Err(DuplicateOptionKey)
  }

  /** The optional diarization settings, shown last when meeting mode is on. */
  const MeetingItems: seq<FormItem> := [
    FileItem(KeySegmentationModel, "说话者分割模型"),
    FileItem(KeyEmbeddingModel, "说话者嵌入模型"),
    NumberItem(KeyNumClusters, "说话者数量", "", 1, 10, true),
    CheckBoxItem(KeyUseClusteringThreshold, "使用聚类阈值"),
    NumberItem(KeyClusteringThreshold, "聚类阈值", "", 1, 10, false)]

  /** The pickers for the four model files, shown when no named model is chosen. */
  const ModelFileItems: seq<FormItem> := [
    FileItem(KeyEncoder, "编码器"),
    FileItem(KeyDecoder, "解码器"),
    FileItem(KeyJoiner, "连接器"),
    FileItem(KeyTokens, "词表")]

  /** The punctuation and meeting-mode switches every form shows. */
  const SwitchItems: seq<FormItem> := [
    CheckBoxItem(KeyEnablePunctuation, "启用标点符号"),
    FileItem(KeyPunctuationModel, "标点符号模型"),
    CheckBoxItem(KeyEnableMeetingMode, "启用会议模式（说话者识别）")]

  /** The form for `c` given the model options: a named model hides the four model-file
      pickers, and meeting mode appends its settings. */
  function Layout(c: Config, options: seq<OptionEntry>): seq<FormItem> {
    var modelItem := OptionItem(KeyModel, "模型", options);
    var head :=
      if c.model != "" then [modelItem] + SwitchItems
      else [modelItem] + ModelFileItems + SwitchItems;
    if c.enableMeetingMode then head + MeetingItems else head
  }

  /** The form of the editor; `models` stands for the resource manager's listing. */
  function GetFormItems(c: Config, models: seq<ModuleInfo>): (r: Result<seq<FormItem>, FormError>)
    ensures r.Ok? <==> KeysConsistent(Candidates(models))
  {
    match ModelOptions(models)
    case Ok(options) => Ok(Layout(c, options))
    case Err(e) => Err(e)
  }

  function ItemKeys(items: seq<FormItem>): (ks: seq<string>)
    ensures |ks| == |items|
    ensures forall i :: 0 <= i < |items| ==> ks[i] == items[i].key
  {
    seq(|items|, i requires 0 <= i < |items| => items[i].key)
  }


  lemma ItemKeysAppend(a: seq<FormItem>, b: seq<FormItem>)
    ensures ItemKeys(a + b) == ItemKeys(a) + ItemKeys(b)
  {
  }

  /** The keys the form edits, in order. */
  lemma LayoutKeys(c: Config, options: seq<OptionEntry>)
    ensures ItemKeys(Layout(c, options)) ==
      [KeyModel] + (if c.model == "" then ModelFileKeys else []) + SwitchKeys
        + (if c.enableMeetingMode then MeetingKeys else [])
  {
    var modelItem := OptionItem(KeyModel, "模型", options);
    assert ItemKeys([modelItem]) == [KeyModel];
    assert ItemKeys(SwitchItems) == SwitchKeys;
    assert ItemKeys(ModelFileItems) == ModelFileKeys;
    assert ItemKeys(MeetingItems) == MeetingKeys;
    ItemKeysAppend([modelItem], SwitchItems);
    ItemKeysAppend([modelItem], ModelFileItems);
    ItemKeysAppend([modelItem] + ModelFileItems, SwitchItems);
    var head := if c.model != "" then [modelItem] + SwitchItems else [modelItem] + ModelFileItems + SwitchItems;
    ItemKeysAppend(head, MeetingItems);
  }

  /** The thirteen keys are pairwise different. */
  lemma KeysDistinct()
    ensures forall i, j :: 0 <= i < j < |Keys| ==> Keys[i] != Keys[j]
  {
  }

  /** The form's shape: the model choice comes first; the model-file pickers appear exactly
      when no named model is selected; the diarization settings appear, last and in order,
      exactly when meeting mode is on; every item edits a known key. */
  lemma FormLayout(c: Config, options: seq<OptionEntry>)
    ensures var items := Layout(c, options);
      var ks := ItemKeys(items);
      && |items| == (if c.model == "" then 8 else 4) + (if c.enableMeetingMode then 5 else 0)
      && items[0] == OptionItem(KeyModel, "模型", options)
      && (forall k :: k in ModelFileKeys ==> (k in ks <==> c.model == ""))
      && (c.enableMeetingMode ==> ks[|ks| - 5..] == MeetingKeys)
      && (!c.enableMeetingMode ==> forall k :: k in MeetingKeys ==> k !in ks)
      && (forall k :: k in SwitchKeys ==> k in ks)
      && (forall k :: k in ks ==> k in Keys)
  {
    LayoutKeys(c, options);
    KeysDistinct();
  }

  /** The number of speakers is edited as an integer between 1 and 10, and only in meeting mode. */
  lemma ClusterCountControl(c: Config, options: seq<OptionEntry>)
    ensures NumberItem(KeyNumClusters, "说话者数量", "", 1, 10, true) in Layout(c, options)
      <==> c.enableMeetingMode
  {
    FormLayout(c, options);
    if c.enableMeetingMode {
      var items := Layout(c, options);
      assert items[|items| - 3] == MeetingItems[2];
    }
  }

  /** A write that raises no form-items-updated event never changes the form, so the
      event is raised wherever the form may change. */
  lemma QuietWriteKeepsForm(c: Config, key: string, v: Value, models: seq<ModuleInfo>)
    requires SetValue(c, key, v).Ok? && !SetValue(c, key, v).value.formItemsUpdated
    ensures GetFormItems(SetValue(c, key, v).value.config, models) == GetFormItems(c, models)
  {
    var e := SetValue(c, key, v).value.config;
    SetChangesOnlyItsKey(c, key, v, KeyModel);
    SetChangesOnlyItsKey(c, key, v, KeyEnableMeetingMode);
    assert e.model == c.model && e.enableMeetingMode == c.enableMeetingMode;
  }
}
