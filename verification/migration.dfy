/** The shallow merge `{...defaultConfig, ...parsed}` with which loading tries
    to rescue a configuration the schema refuses, and what it can and cannot
    rescue. */
module Migration {
  import opened Json
  import opened ConfigSchema

  /** The properties an object literal gets from spreading `items` (an array,
      or the characters of a string): one per index, keyed by the index in
      decimal. */
  function IndexProperties(items: seq<Json>): (m: map<string, Json>)
    ensures forall i | 0 <= i < |items| :: DecimalString(i) in m && m[DecimalString(i)] == items[i]
    ensures forall k | k in m :: exists i :: 0 <= i < |items| && k == DecimalString(i)
    decreases |items|
  {
    if |items| == 0 then map[]
    else
      var last := |items| - 1;
      DecimalStringInjective();
      IndexProperties(items[..last])[DecimalString(last) := items[last]]
  }

  /** The one-character strings a JavaScript string spreads into. */
  function Characters(s: string): seq<Json> {
    seq(|s|, i requires 0 <= i < |s| => JString([s[i]]))
  }

  /** The own enumerable properties `...v` contributes to an object literal:
      an object its properties, an array or a string its indices, and null, a
      boolean or a number nothing at all. */
  function SpreadProperties(v: Json): map<string, Json> {
    match v
    case JObject(fields) => fields
    case JArray(items) => IndexProperties(items)
    case JString(s) => IndexProperties(Characters(s))
    case _ => map[]
  }

  /** `{...defaultConfig, ...parsed}`: every property `parsed` spreads keeps
      its value, every other default key keeps the default value, and no
      other key appears. */
  function MergeWithDefault(parsed: Json): (r: Json)
    ensures r.JObject?
    ensures forall k | k in SpreadProperties(parsed) ::
      k in r.fields && r.fields[k] == SpreadProperties(parsed)[k]
    ensures forall k | k in DefaultJson.fields && k !in SpreadProperties(parsed) ::
      k in r.fields && r.fields[k] == DefaultJson.fields[k]
    ensures forall k | k in r.fields :: k in TopLevelKeys || k in SpreadProperties(parsed)
  {
    JObject(DefaultJson.fields + SpreadProperties(parsed))
  }

  /** A parsed object that already has all four top-level keys comes out of
      the merge unchanged, so the merge never repairs a bad nested value or
      removes an extra key. */
  lemma MergeKeepsCompleteObject(parsed: Json)
    requires parsed.JObject? && TopLevelKeys <= parsed.fields.Keys
    ensures MergeWithDefault(parsed) == parsed
    ensures !ValidConfig(parsed) ==> !ValidConfig(MergeWithDefault(parsed))
  {
  }

  /** Null, a boolean, a number, the empty string and the empty array
      contribute no keys: the merge is the default configuration, which is
      valid. */
  lemma MergeOfKeylessValue(parsed: Json)
    requires || parsed.JNull? || parsed.JBool? || parsed.JNumber?
             || parsed == JString("") || parsed == JArray([])
    ensures MergeWithDefault(parsed) == DefaultJson
    ensures ValidConfig(MergeWithDefault(parsed))
  {
    assert SpreadProperties(parsed) == map[];
    assert MergeWithDefault(parsed).fields == DefaultJson.fields;
    DefaultIsValid();
  }

  /** A non-empty string or array contributes the key "0", which the
      schema's `additionalProperties: false` refuses. */
  lemma MergeOfNonEmptySequence(parsed: Json)
    requires (parsed.JString? && |parsed.str| > 0) || (parsed.JArray? && |parsed.items| > 0)
    ensures !ValidConfig(MergeWithDefault(parsed))
  {
    var r := MergeWithDefault(parsed);
    ZeroKeyIsSpread(parsed);
    ZeroIsNotTopLevel();
    ExtraKeyRefused(r, "0");
  }

  lemma ZeroIsNotTopLevel()
    ensures "0" !in TopLevelKeys
  {
    assert "0"[0] == '0';
  }

  lemma ZeroKeyIsSpread(parsed: Json)
    requires (parsed.JString? && |parsed.str| > 0) || (parsed.JArray? && |parsed.items| > 0)
    ensures "0" in SpreadProperties(parsed)
  {
    if parsed.JString? {
      ZeroKeyIsIndexed(Characters(parsed.str));
    } else {
      ZeroKeyIsIndexed(parsed.items);
    }
  }

  lemma ZeroKeyIsIndexed(items: seq<Json>)
    requires |items| > 0
    ensures "0" in IndexProperties(items)
  {
    assert DecimalString(0) == "0";
    assert DecimalString(0) in IndexProperties(items);
  }

  lemma ExtraKeyRefused(r: Json, k: string)
    requires r.JObject? && k in r.fields && k !in TopLevelKeys
    ensures !ValidConfig(r)
  {
  }

  /** For a parsed object, the merge is valid exactly when the object has no
      key outside the four and every key it has holds a value its subschema
      accepts; absent keys are filled from the default. */
  lemma MergeOfObjectValidIff(parsed: Json)
    requires parsed.JObject?
    ensures ValidConfig(MergeWithDefault(parsed)) <==>
      && parsed.fields.Keys <= TopLevelKeys
      && forall k | k in parsed.fields :: ValidProperty(k, parsed.fields[k])
  {
    var r := MergeWithDefault(parsed);
    DefaultIsValid();
    if parsed.fields.Keys <= TopLevelKeys && forall k | k in parsed.fields :: ValidProperty(k, parsed.fields[k]) {
      forall k | k in r.fields
        ensures ValidProperty(k, r.fields[k])
      {
        if k !in parsed.fields {
          assert ValidProperty(k, DefaultJson.fields[k]);
        }
      }
    }
    if ValidConfig(r) {
      forall k | k in parsed.fields
        ensures k in TopLevelKeys && ValidProperty(k, parsed.fields[k])
      {
        assert r.fields[k] == parsed.fields[k];
      }
    }
  }

  /** The merge rescues a refused value only when that value is an object
      missing some top-level key, or contributes no keys at all. */
  lemma MergeRescuesOnlyMissingKeys(parsed: Json)
    requires !ValidConfig(parsed) && ValidConfig(MergeWithDefault(parsed))
    ensures || (parsed.JObject? && !(TopLevelKeys <= parsed.fields.Keys))
            || parsed.JNull? || parsed.JBool? || parsed.JNumber?
            || parsed == JString("") || parsed == JArray([])
  {
    match parsed
    case JObject(fields) =>
      if TopLevelKeys <= fields.Keys {
        MergeKeepsCompleteObject(parsed);
      }
    case JString(s) =>
      if |s| > 0 {
        MergeOfNonEmptySequence(parsed);
      }
    case JArray(items) =>
      if |items| > 0 {
        MergeOfNonEmptySequence(parsed);
      }
    case _ =>
  }
}
