/** The configuration store: loading (with creation of a default file and
    migration of an outdated one), reading, and replacing the configuration.
    The file system is an abstract disk that records every write. */
module ConfigStore {
  import opened Wrappers
  import opened Json
  import opened ConfigSchema
  import opened Migration

  /** What reading a file and parsing it as JSON yields. */
  datatype Content = Parsed(value: Json) | Unparseable

  datatype Write = Write(path: string, value: Json)

  /** The files the store can see, and every write made to them, in order.
      A written value is read back as itself. */
  datatype Disk = Disk(files: map<string, Content>, writes: seq<Write>)

  function WriteFile(d: Disk, path: string, value: Json): Disk {
    Disk(d.files[path := Parsed(value)], d.writes + [Write(path, value)])
  }

  /** The store's state: whether a load has succeeded, the configuration held
      in memory, and the path later writes go to. */
  datatype Store = Store(loaded: bool, config: Option<ConfigObject>, configPath: Option<string>)

  /** The state before any load. */
  const Initial: Store := Store(false, None, None)

  datatype LoadError =
    | IoError       // the path is empty: no such file can exist or be written
    | ParseError    // the file does not parse as JSON
    | SchemaError   // neither the file nor its merge with the default is valid

  datatype LoadStep = LoadStep(store: Store, disk: Disk, outcome: Outcome<LoadError>)

  /** Takes a schema-checked value as the loaded configuration. */
  function Adopt(v: Json, path: string, d: Disk): (r: LoadStep)
    requires ValidConfig(v)
    ensures r.store.loaded && r.store.configPath == Some(path) && r.disk == d && r.outcome == Pass
    ensures r.store.config.Some? && r.store.config.value.WellFormed()
    ensures r.store.config == Decode(v) && Encode(r.store.config.value) == v
  {
    SchemaAgreesWithDecode(v);
    EncodeDecode(v);
    LoadStep(Store(true, Decode(v), Some(path)), d, Pass)
  }

  /** Loads the configuration file at `path`. */
  function Load(s: Store, d: Disk, path: string): (r: LoadStep)
    ensures r.outcome.Fail? ==> r.store == s
    ensures r.outcome.Pass? ==>
      && r.store.loaded && r.store.configPath == Some(path)
      && r.store.config.Some? && r.store.config.value.WellFormed()
    ensures path == "" ==> r == LoadStep(s, d, Fail(IoError))
    ensures path != "" && path !in d.files ==>
      && r.outcome == Pass && r.store.config == Some(DefaultConfig)
      && r.disk == WriteFile(d, path, DefaultJson)
    ensures path != "" && path in d.files && d.files[path].Unparseable? ==>
      r == LoadStep(s, d, Fail(ParseError))
    ensures path != "" && path in d.files && d.files[path].Parsed? ==>
      var v := d.files[path].value;
      && (ValidConfig(v) ==>
            r.outcome == Pass && Encode(r.store.config.value) == v && r.disk == d)
      && (!ValidConfig(v) && ValidConfig(MergeWithDefault(v)) ==>
            && r.outcome == Pass && Encode(r.store.config.value) == MergeWithDefault(v)
            && r.disk == WriteFile(d, path, MergeWithDefault(v)))
      && (!ValidConfig(v) && !ValidConfig(MergeWithDefault(v)) ==>
            r == LoadStep(s, d, Fail(SchemaError)))
  {
    DefaultIsValid();
    DecodeEncode(DefaultConfig);
    if path == "" then LoadStep(s, d, Fail(IoError))
    else
      var d1 := if path in d.files then d else WriteFile(d, path, DefaultJson);
      match d1.files[path]
      case Unparseable => LoadStep(s, d1, Fail(ParseError))
      case Parsed(v) =>
        if ValidConfig(v) then Adopt(v, path, d1)
        else
          var merged := MergeWithDefault(v);
          if ValidConfig(merged) then Adopt(merged, path, WriteFile(d1, path, merged))
          else LoadStep(s, d1, Fail(SchemaError))
  }

  datatype GetError = NotLoaded

  /** The configuration held in memory, once a load has succeeded. */
  function Get(s: Store): (r: Result<ConfigObject, GetError>)
    ensures Consistent(s) ==> (r.Success? <==> s.loaded)
    ensures r.Success? ==> s.config == Some(r.value)
  {
    if !s.loaded || s.config.None? then Failure(NotLoaded) else Success(s.config.value)
  }

  datatype WriteStep = WriteStep(written: bool, disk: Disk)

  /** Writes the held configuration to the recorded path, unless the store
      has not been loaded or has no (non-empty) path. */
  function WriteConfig(s: Store, d: Disk): (r: WriteStep)
    ensures Consistent(s) ==> (r.written <==> s.loaded)
    ensures r.written ==>
      && s.config.Some? && s.configPath.Some?
      && r.disk.files == d.files[s.configPath.value := Parsed(Encode(s.config.value))]
      && r.disk.writes == d.writes + [Write(s.configPath.value, Encode(s.config.value))]
    ensures !r.written ==> r.disk == d
  {
    if !s.loaded || s.config.None? || s.configPath.None? || s.configPath.value == "" then WriteStep(false, d)
    else WriteStep(true, WriteFile(d, s.configPath.value, Encode(s.config.value)))
  }

  datatype SetStep = SetStep(store: Store, disk: Disk, written: bool)

  /** Replaces the held configuration, unchecked, then writes it out. */
  function Set(s: Store, d: Disk, c: ConfigObject): (r: SetStep)
    ensures r.store.config == Some(c)
    ensures r.store.loaded == s.loaded && r.store.configPath == s.configPath
  {
    var s' := s.(config := Some(c));
    var w := WriteConfig(s', d);
    SetStep(s', w.disk, w.written)
  }

  /** What every reachable state satisfies: a loaded store holds a
      configuration and a non-empty path. */
  predicate Consistent(s: Store) {
    s.loaded ==> s.config.Some? && s.configPath.Some? && s.configPath.value != ""
  }

  /** The constructor's state is consistent, and nothing can be read from it. */
  lemma InitialState()
    ensures Consistent(Initial) && Get(Initial) == Failure(NotLoaded)
  {
  }

  lemma LoadKeepsConsistent(s: Store, d: Disk, path: string)
    requires Consistent(s)
    ensures Consistent(Load(s, d, path).store)
  {
  }

  lemma SetKeepsConsistent(s: Store, d: Disk, c: ConfigObject)
    requires Consistent(s)
    ensures Consistent(Set(s, d, c).store)
  {
  }

  /** In a consistent store, `set` writes exactly when a load has succeeded,
      and then it writes the new configuration to the loaded path. */
  lemma SetWritesIffLoaded(s: Store, d: Disk, c: ConfigObject)
    requires Consistent(s)
    ensures Set(s, d, c).written <==> s.loaded
    ensures Set(s, d, c).written ==> Set(s, d, c).disk == WriteFile(d, s.configPath.value, Encode(c))
  {
  }

  /** Before any successful load, `set` replaces the held configuration but
      writes nothing, returns false, and leaves `get` failing. */
  lemma SetBeforeLoad(s: Store, d: Disk, c: ConfigObject)
    requires !s.loaded
    ensures !Set(s, d, c).written && Set(s, d, c).disk == d
    ensures Set(s, d, c).store == Store(false, Some(c), s.configPath)
    ensures Get(Set(s, d, c).store) == Failure(NotLoaded)
  {
  }

  /** After a successful load, `get` returns a configuration whose JSON is
      what the file at the path now holds, and that content is valid. */
  lemma LoadThenGet(s: Store, d: Disk, path: string)
    requires Load(s, d, path).outcome.Pass?
    ensures var r := Load(s, d, path);
      && Get(r.store).Success?
      && path in r.disk.files
      && r.disk.files[path] == Parsed(Encode(Get(r.store).value))
      && ValidConfig(r.disk.files[path].value)
  {
  }

  /** Loading again from the same, now unchanged, file changes nothing and
      writes nothing. */
  lemma LoadIdempotent(s: Store, d: Disk, path: string)
    requires Load(s, d, path).outcome.Pass?
    ensures var r := Load(s, d, path);
      Load(r.store, r.disk, path) == r
  {
  }

  /** Setting a well-formed configuration on a loaded store and then loading
      the file afresh yields that configuration, without another write. */
  lemma SetThenReload(s: Store, d: Disk, c: ConfigObject, loader: Store)
    requires Consistent(s) && s.loaded && c.WellFormed()
    ensures var w := Set(s, d, c);
      var r := Load(loader, w.disk, s.configPath.value);
      r.outcome == Pass && r.store.config == Some(c) && r.disk == w.disk
  {
    EncodingValidIffWellFormed(c);
    DecodeEncode(c);
  }

  /** `set` does not check the schema: after setting a configuration whose
      port is out of range, loading the written file afresh fails. */
  lemma SetUncheckedBreaksReload(s: Store, d: Disk, c: ConfigObject, loader: Store)
    requires Consistent(s) && s.loaded && !c.WellFormed()
    ensures var w := Set(s, d, c);
      Load(loader, w.disk, s.configPath.value) == LoadStep(loader, w.disk, Fail(SchemaError))
  {
  }
}
