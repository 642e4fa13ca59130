/** The suite file: which of a suite's attributes are persisted and how, and
    reading a suite back. */
module Persist {
  import opened Values

  /** The JSON values the suite file is made of. */
  datatype Json = JNull | JStr(text: string) | JList(items: seq<Json>) | JObject(fields: map<string, Json>)

  /** The persisted members of a suite. */
  datatype SuiteData = SuiteData(name: string, codec: Codec, description: string, testVectors: seq<TestVector>)

  /** One attribute of a suite instance. */
  datatype Attr = AStr(s: string) | ACodec(c: Codec) | AVectors(vs: seq<TestVector>)

  /** The attribute names of a suite instance. */
  const InstanceKeys: set<string> := {"filename", "resources_dir", "name", "codec", "description", "test_vectors"}

  /** The keys of a suite file. */
  const PersistedKeys: set<string> := {"name", "codec", "description", "test_vectors"}

  /** The instance's attribute dictionary. */
  function Attributes(filename: string, resourcesDir: string, d: SuiteData): (attrs: map<string, Attr>)
    ensures attrs.Keys == InstanceKeys
  {
    map["filename" := AStr(filename), "resources_dir" := AStr(resourcesDir),
        "name" := AStr(d.name), "codec" := ACodec(d.codec),
        "description" := AStr(d.description), "test_vectors" := AVectors(d.testVectors)]
  }

  /** How one remaining attribute is written: strings as they are, the codec
      as the string of its value, the vectors through their own projection. */
  function AttrToJson(a: Attr, encodeVector: TestVector -> Json): Json {
    match a
    case AStr(s) => JStr(s)
    case ACodec(c) => JStr(c.value)
    case AVectors(vs) => JList(EncodeVectors(vs, encodeVector))
  }

  function EncodeVectors(vs: seq<TestVector>, encodeVector: TestVector -> Json): (js: seq<Json>)
    ensures |js| == |vs|
    ensures forall k :: 0 <= k < |vs| ==> js[k] == encodeVector(vs[k])
  {
    if vs == [] then [] else [encodeVector(vs[0])] + EncodeVectors(vs[1..], encodeVector)
  }

  /** `to_json_file`: the attribute dictionary without `filename` and
      `resources_dir`, each remaining attribute converted. The file path and
      resource directory never reach the file, whatever they are. */
  function Serialize(filename: string, resourcesDir: string, d: SuiteData, encodeVector: TestVector -> Json): (data: map<string, Json>)
    ensures data.Keys == InstanceKeys - {"filename", "resources_dir"}
    ensures data.Keys == PersistedKeys
    ensures data["name"] == JStr(d.name) && data["description"] == JStr(d.description)
    ensures data["codec"] == JStr(d.codec.value)
    ensures data["test_vectors"] == JList(EncodeVectors(d.testVectors, encodeVector))
  {
    var attrs := Attributes(filename, resourcesDir, d) - {"resources_dir", "filename"};
    map k | k in attrs :: AttrToJson(attrs[k], encodeVector)
  }

  /** The file path and resource directory never reach the file. */
  lemma SerializeIgnoresRuntimeFields(f1: string, r1: string, f2: string, r2: string, d: SuiteData, encodeVector: TestVector -> Json)
    ensures Serialize(f1, r1, d, encodeVector) == Serialize(f2, r2, d, encodeVector)
  {
  }

  /** Decode every raw vector, in order, failing if any one fails. */
  function DecodeVectors(js: seq<Json>, decodeVector: Json -> Option<TestVector>): (r: Option<seq<TestVector>>)
    ensures r.Some? ==> |r.value| == |js|
    ensures r.Some? ==> forall k :: 0 <= k < |js| ==> decodeVector(js[k]) == Some(r.value[k])
    ensures (forall k :: 0 <= k < |js| ==> decodeVector(js[k]).Some?) ==> r.Some?
  {
    if js == [] then Some([])
    else match (decodeVector(js[0]), DecodeVectors(js[1..], decodeVector))
      case (Some(v), Some(vs)) => Some([v] + vs)
      case _ => None
  }

  /** `from_json_file` on parsed data: the keys must be exactly the suite's
      constructor arguments, the codec a known codec value and every raw
      vector decodable; otherwise loading fails. A loaded suite holds the
      file's name, codec, description and decoded vectors, and data of that
      shape always loads. */
  function Deserialize(data: map<string, Json>, decodeVector: Json -> Option<TestVector>, isCodec: string -> bool): (r: Option<SuiteData>)
    ensures r.Some? ==> data.Keys == PersistedKeys && data["codec"] == JStr(r.value.codec.value) && isCodec(r.value.codec.value)
    ensures r.Some? ==> data["name"] == JStr(r.value.name) && data["description"] == JStr(r.value.description)
    ensures r.Some? ==> data["test_vectors"].JList?
    ensures r.Some? ==> DecodeVectors(data["test_vectors"].items, decodeVector) == Some(r.value.testVectors)
    ensures (data.Keys == PersistedKeys && data["name"].JStr? && data["codec"].JStr? &&
             data["description"].JStr? && data["test_vectors"].JList? &&
             isCodec(data["codec"].text) && DecodeVectors(data["test_vectors"].items, decodeVector).Some?)
              ==> r.Some?
  {
    if data.Keys != PersistedKeys then None
    else match (data["name"], data["codec"], data["description"], data["test_vectors"])
      case (JStr(name), JStr(codec), JStr(description), JList(raw)) =>
        if !isCodec(codec) then None
        else (match DecodeVectors(raw, decodeVector)
          case Some(vs) => Some(SuiteData(name, Codec(codec), description, vs))
          case None => None)
      case _ => None
  }

  lemma {:induction false} DecodeEncodedVectors(vs: seq<TestVector>, encodeVector: TestVector -> Json, decodeVector: Json -> Option<TestVector>)
    requires forall v :: v in vs ==> decodeVector(encodeVector(v)) == Some(v)
    ensures DecodeVectors(EncodeVectors(vs, encodeVector), decodeVector) == Some(vs)
  {
    if vs != [] {
      DecodeEncodedVectors(vs[1..], encodeVector, decodeVector);
      assert EncodeVectors(vs, encodeVector)[1..] == EncodeVectors(vs[1..], encodeVector);
      assert [vs[0]] + vs[1..] == vs;
    }
  }

  /** A saved suite reads back as the same suite, provided its codec value is
      known and each vector's own projection reads back as that vector. */
  lemma SaveLoadRoundTrip(filename: string, resourcesDir: string, d: SuiteData,
                          encodeVector: TestVector -> Json, decodeVector: Json -> Option<TestVector>, isCodec: string -> bool)
    requires isCodec(d.codec.value)
    requires forall v :: v in d.testVectors ==> decodeVector(encodeVector(v)) == Some(v)
    ensures Deserialize(Serialize(filename, resourcesDir, d, encodeVector), decodeVector, isCodec) == Some(d)
  {
    DecodeEncodedVectors(d.testVectors, encodeVector, decodeVector);
  }
}
