/** The configuration file's JSON schema, written as a validity predicate over
    parsed JSON; the typed configuration object it describes; the conversions
    between the two; and the built-in default configuration. */
module ConfigSchema {
  import opened Wrappers
  import opened Json

  const TopLevelKeys: set<string> := {"matrix", "apiKeys", "listenHost", "listenPort"}
  const MatrixKeys: set<string> := {"baseUrl", "userId", "accessToken", "password", "roomId"}
  const MatrixRequired: set<string> := {"baseUrl", "userId", "roomId"}
  const ApiKeyKeys: set<string> := {"name", "key"}
  const MinPort: int := 1024
  const MaxPort: int := 65535

  // The JSON Schema (draft-07) keywords the schema uses, each over the
  // properties of one object.

  /** `required`: every listed key is present. */
  predicate Required(m: map<string, Json>, keys: set<string>) {
    keys <= m.Keys
  }

  /** `additionalProperties: false` (section 6.5.6 of JSON Schema Validation, draft-07): no key outside `properties`. */
  predicate NoAdditional(m: map<string, Json>, properties: set<string>) {
    m.Keys <= properties
  }

  /** `properties` whose subschemas are all `type: 'string'`: each listed key
      that is present holds a string. */
  predicate StringProperties(m: map<string, Json>, keys: set<string>) {
    forall k | k in m && k in keys :: m[k].JString?
  }

  /** How many of the alternatives validate. */
  function CountValid(alternatives: seq<bool>): nat {
    if |alternatives| == 0 then 0
    else (if alternatives[0] then 1 else 0) + CountValid(alternatives[1..])
  }

  lemma CountValidPair(a: bool, b: bool)
    ensures CountValid([a, b]) == (if a then 1 else 0) + (if b then 1 else 0)
  {
    assert [a, b][1..] == [b];
    assert [b][1..] == [];
    assert CountValid([b]) == (if b then 1 else 0) + CountValid([]);
  }

  /** `oneOf` (section 6.7.3 of JSON Schema Validation, draft-07): exactly one alternative validates. */
  predicate OneOf(alternatives: seq<bool>) {
    CountValid(alternatives) == 1
  }

  /** The `matrix` subschema. */
  predicate ValidMatrix(j: Json) {
    && j.JObject?
    && StringProperties(j.fields, MatrixKeys)
    && Required(j.fields, MatrixRequired)
    && NoAdditional(j.fields, MatrixKeys)
    && OneOf([Required(j.fields, MatrixRequired + {"accessToken"}),
              Required(j.fields, MatrixRequired + {"password"})])
  }

  /** The `apiKeys.items` subschema. */
  predicate ValidApiKey(j: Json) {
    && j.JObject?
    && StringProperties(j.fields, ApiKeyKeys)
    && Required(j.fields, ApiKeyKeys)
    && NoAdditional(j.fields, ApiKeyKeys)
  }

  /** The `apiKeys` subschema. */
  predicate ValidApiKeys(j: Json) {
    j.JArray? && forall i | 0 <= i < |j.items| :: ValidApiKey(j.items[i])
  }

  /** The `listenPort` subschema: `type: 'integer'` with `minimum` and `maximum`. */
  predicate ValidListenPort(j: Json) {
    j.JNumber? && j.integral && MinPort <= j.whole <= MaxPort
  }

  /** The subschema `properties` gives top-level key `k`; other keys have none
      here and are refused by `additionalProperties` instead. */
  predicate ValidProperty(k: string, v: Json) {
    if k == "matrix" then ValidMatrix(v)
    else if k == "apiKeys" then ValidApiKeys(v)
    else if k == "listenHost" then v.JString?
    else if k == "listenPort" then ValidListenPort(v)
    else true
  }

  /** The whole configuration schema. */
  predicate ValidConfig(j: Json) {
    && j.JObject?
    && (forall k | k in j.fields :: ValidProperty(k, j.fields[k]))
    && Required(j.fields, TopLevelKeys)
    && NoAdditional(j.fields, TopLevelKeys)
  }

  // The typed configuration object.

  /** The two credential forms of the `matrix` section, as a tagged variant. */
  datatype Credential = Password(password: string) | AccessToken(accessToken: string)

  datatype MatrixConfig = MatrixConfig(baseUrl: string, userId: string, roomId: string, credential: Credential)

  datatype ApiKey = ApiKey(name: string, key: string)

  datatype ConfigObject = ConfigObject(matrix: MatrixConfig, apiKeys: seq<ApiKey>, listenHost: string, listenPort: int)
  {
    /** What the TypeScript type leaves to the schema: the port range. */
    predicate WellFormed() {
      MinPort <= listenPort <= MaxPort
    }
  }

  /** The configuration written when no file exists. */
  const DefaultConfig: ConfigObject := ConfigObject(
    MatrixConfig("https://matrix.org", "@example:matrix.org", "!<example>:matrix.org", Password("<password>")),
    [],
    "0.0.0.0",
    9456)

  function EncodeMatrix(m: MatrixConfig): Json {
    var common := map["baseUrl" := JString(m.baseUrl), "userId" := JString(m.userId), "roomId" := JString(m.roomId)];
    match m.credential
    case Password(p) => JObject(common["password" := JString(p)])
    case AccessToken(t) => JObject(common["accessToken" := JString(t)])
  }

  function EncodeApiKey(k: ApiKey): Json {
    JObject(map["name" := JString(k.name), "key" := JString(k.key)])
  }

  function EncodeApiKeys(keys: seq<ApiKey>): seq<Json> {
    seq(|keys|, i requires 0 <= i < |keys| => EncodeApiKey(keys[i]))
  }

  /** The JSON value of a configuration object, as it is held and written. */
  function Encode(c: ConfigObject): Json {
    JObject(map[
      "matrix" := EncodeMatrix(c.matrix),
      "apiKeys" := JArray(EncodeApiKeys(c.apiKeys)),
      "listenHost" := JString(c.listenHost),
      "listenPort" := JNumber(c.listenPort, true)])
  }

  /** The default configuration as a JSON value. */
  const DefaultJson: Json := Encode(DefaultConfig)

  /** Reads a `matrix` section by the credential it carries. */
  function DecodeMatrix(j: Json): Option<MatrixConfig> {
    if !j.JObject? || !(forall k | k in j.fields :: j.fields[k].JString?) then None
    else if j.fields.Keys == MatrixRequired + {"password"} then
      Some(MatrixConfig(j.fields["baseUrl"].str, j.fields["userId"].str, j.fields["roomId"].str,
                        Password(j.fields["password"].str)))
    else if j.fields.Keys == MatrixRequired + {"accessToken"} then
      Some(MatrixConfig(j.fields["baseUrl"].str, j.fields["userId"].str, j.fields["roomId"].str,
                        AccessToken(j.fields["accessToken"].str)))
    else None
  }

  function DecodeApiKey(j: Json): Option<ApiKey> {
    if j.JObject? && j.fields.Keys == ApiKeyKeys && j.fields["name"].JString? && j.fields["key"].JString?
    then Some(ApiKey(j.fields["name"].str, j.fields["key"].str))
    else None
  }

  function DecodeApiKeys(items: seq<Json>): Option<seq<ApiKey>>
    decreases |items|
  {
    if |items| == 0 then Some([])
    else
      match (DecodeApiKey(items[0]), DecodeApiKeys(items[1..]))
      case (Some(k), Some(rest)) => Some([k] + rest)
      case _ => None
  }

  /** Reads a configuration object out of a JSON value, or refuses it. */
  function Decode(j: Json): Option<ConfigObject> {
    if !j.JObject? || j.fields.Keys != TopLevelKeys then None
    else
      var f := j.fields;
      var matrix := DecodeMatrix(f["matrix"]);
      var keys := if f["apiKeys"].JArray? then DecodeApiKeys(f["apiKeys"].items) else None;
      var port := f["listenPort"];
      if matrix.Some? && keys.Some? && f["listenHost"].JString? && port.JNumber? && port.integral then
        var c := ConfigObject(matrix.value, keys.value, f["listenHost"].str, port.whole);
        if c.WellFormed() then Some(c) else None
      else None
  }

  // Lemmas: the schema against the typed reading.

  lemma MatrixSchemaAgreesWithDecode(j: Json)
    ensures ValidMatrix(j) <==> DecodeMatrix(j).Some?
    ensures DecodeMatrix(j).Some? ==> EncodeMatrix(DecodeMatrix(j).value) == j
  {
    if j.JObject? {
      var m := j.fields;
      MatrixCriterion(j);
      if ValidMatrix(j) {
        if "password" in m {
          forall k | k in m.Keys
            ensures k in MatrixRequired + {"password"}
          {
            assert k in MatrixKeys;
          }
          assert m.Keys == MatrixRequired + {"password"};
        } else {
          forall k | k in m.Keys
            ensures k in MatrixRequired + {"accessToken"}
          {
            assert k in MatrixKeys;
          }
          assert m.Keys == MatrixRequired + {"accessToken"};
        }
      }
      if DecodeMatrix(j).Some? {
        var d := DecodeMatrix(j).value;
        assert EncodeMatrix(d).fields == m;
      }
    }
  }

  lemma {:induction false} ApiKeysSchemaAgreesWithDecode(items: seq<Json>)
    ensures ValidApiKeys(JArray(items)) <==> DecodeApiKeys(items).Some?
    ensures DecodeApiKeys(items).Some? ==> EncodeApiKeys(DecodeApiKeys(items).value) == items
    decreases |items|
  {
    if |items| > 0 {
      ApiKeysSchemaAgreesWithDecode(items[1..]);
      assert ValidApiKey(items[0]) <==> DecodeApiKey(items[0]).Some?;
      if DecodeApiKey(items[0]).Some? {
        assert EncodeApiKey(DecodeApiKey(items[0]).value).fields == items[0].fields;
      }
      if ValidApiKeys(JArray(items)) {
        assert ValidApiKeys(JArray(items[1..]));
      }
    }
  }

  lemma {:induction false} ApiKeysRoundTrip(keys: seq<ApiKey>)
    ensures DecodeApiKeys(EncodeApiKeys(keys)) == Some(keys)
    decreases |keys|
  {
    if |keys| > 0 {
      var items := EncodeApiKeys(keys);
      assert items[1..] == EncodeApiKeys(keys[1..]);
      ApiKeysRoundTrip(keys[1..]);
      assert DecodeApiKey(items[0]) == Some(keys[0]);
      assert [keys[0]] + keys[1..] == keys;
    }
  }

  /** The schema accepts exactly the values that read as a configuration object. */
  lemma SchemaAgreesWithDecode(j: Json)
    ensures ValidConfig(j) <==> Decode(j).Some?
  {
    if j.JObject? && j.fields.Keys == TopLevelKeys {
      var f := j.fields;
      MatrixSchemaAgreesWithDecode(f["matrix"]);
      if f["apiKeys"].JArray? {
        ApiKeysSchemaAgreesWithDecode(f["apiKeys"].items);
      }
      assert ValidProperty("matrix", f["matrix"]) <==> ValidMatrix(f["matrix"]);
      assert ValidProperty("apiKeys", f["apiKeys"]) <==> ValidApiKeys(f["apiKeys"]);
      assert ValidProperty("listenHost", f["listenHost"]) <==> f["listenHost"].JString?;
      assert ValidProperty("listenPort", f["listenPort"]) <==> ValidListenPort(f["listenPort"]);
    }
  }

  /** A value that reads as a configuration object is that object's encoding,
      and the object respects the port range. */
  lemma EncodeDecode(j: Json)
    requires Decode(j).Some?
    ensures Decode(j).value.WellFormed()
    ensures Encode(Decode(j).value) == j
  {
    var f := j.fields;
    MatrixSchemaAgreesWithDecode(f["matrix"]);
    ApiKeysSchemaAgreesWithDecode(f["apiKeys"].items);
    assert Encode(Decode(j).value).fields == f;
  }

  /** A well-formed object reads back from its encoding unchanged. */
  lemma DecodeEncode(c: ConfigObject)
    requires c.WellFormed()
    ensures Decode(Encode(c)) == Some(c)
  {
    var f := Encode(c).fields;
    assert f.Keys == TopLevelKeys;
    assert DecodeMatrix(f["matrix"]) == Some(c.matrix) by {
      var e := EncodeMatrix(c.matrix);
      match c.matrix.credential
      case Password(_) => assert e.fields.Keys == MatrixRequired + {"password"};
      case AccessToken(_) => assert e.fields.Keys == MatrixRequired + {"accessToken"};
    }
    ApiKeysRoundTrip(c.apiKeys);
  }

  /** An object's encoding satisfies the schema exactly when its port is in range. */
  lemma EncodingValidIffWellFormed(c: ConfigObject)
    ensures ValidConfig(Encode(c)) <==> c.WellFormed()
  {
    SchemaAgreesWithDecode(Encode(c));
    if c.WellFormed() {
      DecodeEncode(c);
    } else {
      assert !ValidListenPort(Encode(c).fields["listenPort"]);
    }
  }

  // Lemmas: the schema in plain terms.

  /** The default configuration satisfies the schema: password credential,
      no API keys, host 0.0.0.0, port 9456. */
  lemma DefaultIsValid()
    ensures ValidConfig(DefaultJson)
    ensures DefaultJson.fields["matrix"].fields.Keys == MatrixRequired + {"password"}
    ensures DefaultJson.fields["apiKeys"] == JArray([])
    ensures DefaultJson.fields["listenHost"] == JString("0.0.0.0")
    ensures DefaultJson.fields["listenPort"] == JNumber(9456, true)
  {
    EncodingValidIffWellFormed(DefaultConfig);
  }

  /** The top-level keys of a valid configuration are exactly the four
      schema keys: dropping one of them, or adding any other, makes it invalid. */
  lemma TopLevelKeysExact(j: Json, k: string, v: Json)
    requires ValidConfig(j)
    ensures j.fields.Keys == TopLevelKeys
    ensures k in TopLevelKeys ==> !ValidConfig(JObject(j.fields - {k}))
    ensures k !in TopLevelKeys ==> !ValidConfig(JObject(j.fields[k := v]))
  {
  }

  /** With everything else valid, a configuration is valid exactly when its
      `listenPort` is an integral number from 1024 to 65535. */
  lemma ListenPortCriterion(j: Json, v: Json)
    requires ValidConfig(j)
    ensures ValidConfig(JObject(j.fields["listenPort" := v])) <==>
            (v.JNumber? && v.integral && 1024 <= v.whole <= 65535)
  {
  }

  /** The `matrix` section is valid exactly when it is an object of string
      values with `baseUrl`, `userId` and `roomId`, no keys beyond those and the
      two credentials, and exactly one of `accessToken` and `password`. */
  lemma MatrixCriterion(j: Json)
    ensures ValidMatrix(j) <==>
      && j.JObject?
      && (forall k | k in j.fields :: j.fields[k].JString?)
      && "baseUrl" in j.fields && "userId" in j.fields && "roomId" in j.fields
      && j.fields.Keys <= MatrixKeys
      && (("accessToken" in j.fields) != ("password" in j.fields))
  {
    if j.JObject? {
      var m := j.fields;
      assert Required(m, MatrixRequired) <==> "baseUrl" in m && "userId" in m && "roomId" in m;
      CountValidPair(Required(m, MatrixRequired + {"accessToken"}), Required(m, MatrixRequired + {"password"}));
      if Required(m, MatrixRequired) {
        assert Required(m, MatrixRequired + {"accessToken"}) <==> "accessToken" in m;
        assert Required(m, MatrixRequired + {"password"}) <==> "password" in m;
      }
    }
  }

  /** An `apiKeys` entry is valid exactly when it is `{name, key}` with both
      strings; an empty `apiKeys` array is valid. */
  lemma ApiKeyCriterion(j: Json)
    ensures ValidApiKey(j) <==> exists name: string, key: string :: j == EncodeApiKey(ApiKey(name, key))
    ensures ValidApiKeys(JArray([]))
  {
    if ValidApiKey(j) {
      var d := DecodeApiKey(j).value;
      assert EncodeApiKey(d).fields == j.fields;
    }
  }
}
