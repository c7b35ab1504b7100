/** Layering the workspace, user and local configuration files over the defaults. */
module Config {
  import opened Wrappers

  datatype Json =
    | Null
    | Bool(b: bool)
    | Number(n: int)
    | Str(s: string)
    | Arr(items: seq<Json>)
    | Obj(fields: seq<(string, Json)>)

  /** The top level of a configuration file; keys are distinct. */
  type Object = seq<(string, Json)>

  ghost predicate DistinctKeys(o: Object) {
    forall i, j :: 0 <= i < j < |o| ==> o[i].0 != o[j].0
  }

  function Lookup(o: Object, k: string): (r: Option<Json>)
    ensures r.Some? ==> (k, r.value) in o
    ensures r.None? ==> forall i :: 0 <= i < |o| ==> o[i].0 != k
  {
    if o == [] then None
    else if o[|o| - 1].0 == k then Some(o[|o| - 1].1)
    else Lookup(o[..|o| - 1], k)
  }

  /** A configuration file that was named: it may be missing or invalid, and is then skipped. */
  datatype File = Skipped | Loaded(fields: Object)

  datatype Source = Source(path: string, file: File)

  function ObjectOf(s: Option<Source>): Option<Object> {
    if s.Some? && s.value.file.Loaded? then Some(s.value.file.fields) else None
  }

  /** The named file was loaded and has the field `k` with value `v`. */
  ghost predicate Gives(source: Option<Source>, k: string, v: Json) {
    source.Some? && source.value.file.Loaded? && (k, v) in source.value.file.fields
  }

  ghost predicate SomeGives(sources: seq<Option<Source>>, k: string, v: Json) {
    exists i :: 0 <= i < |sources| && Gives(sources[i], k, v)
  }

  /** With distinct keys, looking a key up gives the value it is paired with. */
  lemma LookupIsMembership(o: Object, k: string, v: Json)
    requires DistinctKeys(o)
    ensures Lookup(o, k) == Some(v) <==> (k, v) in o
  {
    if (k, v) in o {
      var i :| 0 <= i < |o| && o[i] == (k, v);
      LookupAt(o, i);
    }
  }

  // ----- One field -----

  /** The values a field was given, in order: does a non-array follow an array? */
  ghost predicate Mixed(vals: seq<Json>) {
    exists j: nat :: Drops(vals, j)
  }

  predicate Drops(vals: seq<Json>, j: nat) {
    j + 1 < |vals| && vals[j].Arr? && !vals[j + 1].Arr?
  }

  function Items(vals: seq<Json>): seq<Json> {
    if vals == [] then []
    else Items(vals[..|vals| - 1]) + if vals[|vals| - 1].Arr? then vals[|vals| - 1].items else []
  }

  /** What the field ends up with: all array items in order, or else the last value. */
  function Layered(vals: seq<Json>): Option<Json> {
    if vals == [] then None
    else if vals[|vals| - 1].Arr? then Some(Arr(Items(vals)))
    else Some(vals[|vals| - 1])
  }

  function Get(config: map<string, Json>, k: string): Option<Json> {
    if k in config then Some(config[k]) else None
  }

  /** An array cannot be extended with something that is no array. */
  predicate Clash(current: Option<Json>, v: Json) {
    current.Some? && current.value.Arr? && !v.Arr?
  }

  function Over(current: Option<Json>, v: Json): Json
    requires !Clash(current, v)
  {
    if current.Some? && current.value.Arr? then Arr(current.value.items + v.items) else v
  }

  /** As long as arrays come last, the items of a field that is no array are none. */
  lemma {:induction false} NoItemsBefore(vals: seq<Json>)
    requires !Mixed(vals) && vals != [] && !vals[|vals| - 1].Arr?
    ensures Items(vals) == []
  {
    var n := |vals| - 1;
    if n > 0 {
      assert !Drops(vals, n - 1);
      MixedPrefix(vals, n);
      NoItemsBefore(vals[..n]);
    }
  }

  lemma MixedPrefix(vals: seq<Json>, n: nat)
    requires n <= |vals|
    ensures Mixed(vals[..n]) ==> Mixed(vals)
  {
    if j: nat :| Drops(vals[..n], j) {
      assert Drops(vals, j);
    }
  }

  /** Layering one more value: fails exactly when it makes the values mixed, and otherwise gives the closed form. */
  lemma LayerMore(vals: seq<Json>, v: Json)
    requires !Mixed(vals)
    ensures Clash(Layered(vals), v) <==> Mixed(vals + [v])
    ensures !Clash(Layered(vals), v) ==> Layered(vals + [v]) == Some(Over(Layered(vals), v))
  {
    var n := |vals|;
    var w := vals + [v];
    assert w[..n] == vals;
    assert Items(w) == Items(vals) + if v.Arr? then v.items else [];
    if j: nat :| Drops(w, j) {
      assert j < n - 1 ==> Drops(vals, j);
    }
    if n == 0 {
      assert v.Arr? ==> [] + v.items == v.items;
    } else {
      assert Drops(w, n - 1) <==> vals[n - 1].Arr? && !v.Arr?;
      if !vals[n - 1].Arr? {
        NoItemsBefore(vals);
        assert v.Arr? ==> [] + v.items == v.items;
      }
    }
  }

  lemma LayeredOne(v: Json)
    ensures Layered([v]) == Some(v) && !Mixed([v])
  {
    LayerMore([], v);
    assert [] + [v] == [v];
  }

  // ----- Layering files -----

  class Merge {
    var config: map<string, Json>

    constructor (defaults: map<string, Json>)
      ensures config == defaults
    {
      config := defaults;
    }

    /** Lays the fields of a file over the configuration so far; fails on the first clash. */
    method LayerFile(fields: Object) returns (ok: bool)
      requires DistinctKeys(fields)
      modifies this
      ensures ok <==> NoClash(old(config), fields)
      ensures ok ==> IsLaid(old(config), fields, config)
    {
      ghost var before := config;
      var i := 0;
      while i < |fields|
        invariant 0 <= i <= |fields|
        invariant NoClash(before, fields[..i]) && IsLaid(before, fields[..i], config)
      {
        var (k, v) := fields[i];
        LayField(before, fields, i, config);
        if k in config && config[k].Arr? {
          if !v.Arr? {
            return false;
          }
          config := config[k := Arr(config[k].items + v.items)];
        } else {
          config := config[k := v];
        }
        i := i + 1;
      }
      assert fields[..i] == fields;
      ok := true;
    }
  }

  ghost predicate NoClash(before: map<string, Json>, fields: Object) {
    forall k :: Lookup(fields, k).Some? ==> !Clash(Get(before, k), Lookup(fields, k).value)
  }

  ghost predicate IsLaid(before: map<string, Json>, fields: Object, config: map<string, Json>) {
    forall k :: Get(config, k) == Laid(Get(before, k), Lookup(fields, k))
  }

  /** What laying field `i` over the earlier ones does. */
  lemma LayField(before: map<string, Json>, fields: Object, i: nat, config: map<string, Json>)
    requires DistinctKeys(fields) && i < |fields|
    requires NoClash(before, fields[..i]) && IsLaid(before, fields[..i], config)
    ensures var (k, v) := fields[i];
            if Clash(Get(config, k), v) then !NoClash(before, fields)
            else
              && NoClash(before, fields[..i + 1])
              && IsLaid(before, fields[..i + 1], config[k := Over(Get(config, k), v)])
  {
    var (k, v) := fields[i];
    KeyComesOnce(fields, i);
    LookupAt(fields, i);
    assert fields[..i + 1][..i] == fields[..i];
    assert Get(config, k) == Get(before, k);
  }

  function Laid(current: Option<Json>, v: Option<Json>): Option<Json> {
    if v.None? then current
    else if Clash(current, v.value) then None
    else Some(Over(current, v.value))
  }

  lemma KeyComesOnce(o: Object, i: nat)
    requires DistinctKeys(o) && i < |o|
    ensures Lookup(o[..i], o[i].0) == None
  {
  }

  lemma LookupAt(o: Object, i: nat)
    requires DistinctKeys(o) && i < |o|
    ensures Lookup(o, o[i].0) == Some(o[i].1)
  {
    var v := Lookup(o, o[i].0).value;
    var j :| 0 <= j < |o| && o[j] == (o[i].0, v);
  }

  /** The values given to field `k`: the default, then those of the loaded files. */
  function ValuesOf(defaults: map<string, Json>, files: seq<Object>, k: string): seq<Json> {
    if files == [] then
      if k in defaults then [defaults[k]] else []
    else
      var before := ValuesOf(defaults, files[..|files| - 1], k);
      match Lookup(files[|files| - 1], k)
      case None => before
      case Some(v) => before + [v]
  }

  /** Some field was given a non-array after an array. */
  ghost predicate SomeMixed(defaults: map<string, Json>, files: seq<Object>) {
    exists k :: Mixed(ValuesOf(defaults, files, k))
  }

  ghost predicate LayeredConfig(defaults: map<string, Json>, files: seq<Object>, config: map<string, Json>) {
    forall k :: Get(config, k) == Layered(ValuesOf(defaults, files, k))
  }

  lemma DefaultsLayered(defaults: map<string, Json>)
    ensures !SomeMixed(defaults, []) && LayeredConfig(defaults, [], defaults)
  {
    forall k ensures !Mixed(ValuesOf(defaults, [], k)) && Get(defaults, k) == Layered(ValuesOf(defaults, [], k)) {
      if k in defaults {
        LayeredOne(defaults[k]);
      }
    }
  }

  lemma LayerFileMore(defaults: map<string, Json>, files: seq<Object>, o: Object, config: map<string, Json>, k: string)
    requires !SomeMixed(defaults, files) && LayeredConfig(defaults, files, config)
    ensures Mixed(ValuesOf(defaults, files + [o], k))
       <==> Lookup(o, k).Some? && Clash(Get(config, k), Lookup(o, k).value)
    ensures !Mixed(ValuesOf(defaults, files + [o], k)) ==>
              Layered(ValuesOf(defaults, files + [o], k)) == Laid(Get(config, k), Lookup(o, k))
  {
    assert (files + [o])[..|files|] == files;
    assert !Mixed(ValuesOf(defaults, files, k));
    if Lookup(o, k).Some? {
      LayerMore(ValuesOf(defaults, files, k), Lookup(o, k).value);
    }
  }

  /** A field that got mixed stays so, whatever is layered later. */
  lemma MixedStays(defaults: map<string, Json>, files: seq<Object>, o: Object)
    ensures SomeMixed(defaults, files) ==> SomeMixed(defaults, files + [o])
  {
    assert (files + [o])[..|files|] == files;
    if k :| Mixed(ValuesOf(defaults, files, k)) {
      var a, b := ValuesOf(defaults, files, k), ValuesOf(defaults, files + [o], k);
      assert b[..|a|] == a;
      MixedPrefix(b, |a|);
    }
  }

  // ----- Flags -----

  function FlagsOf(o: Option<Object>): string {
    match o
    case None => ""
    case Some(fields) =>
      match Lookup(fields, "flags")
      case Some(Str(s)) => s
      case _ => ""
  }

  datatype FlagSource = FlagSource(path: string, flags: string)

  type Flags = list: seq<FlagSource> | |list| <= 2

  /** The loaded file has flags, and they are `f`. */
  ghost predicate HasFlags(source: Option<Source>, f: string) {
    f != "" && Gives(source, "flags", Str(f))
  }

  ghost predicate WithFlags(source: Option<Source>) {
    exists f :: HasFlags(source, f)
  }

  lemma FlagsOfFile(source: Option<Source>)
    requires ObjectOf(source).Some? ==> DistinctKeys(ObjectOf(source).value)
    ensures forall f :: HasFlags(source, f) <==> f != "" && f == FlagsOf(ObjectOf(source))
    ensures WithFlags(source) <==> FlagsOf(ObjectOf(source)) != ""
  {
    forall f ensures HasFlags(source, f) <==> f != "" && f == FlagsOf(ObjectOf(source)) {
      if ObjectOf(source).Some? {
        LookupIsMembership(ObjectOf(source).value, "flags", Str(f));
      }
    }
    assert FlagsOf(ObjectOf(source)) != "" ==> HasFlags(source, FlagsOf(ObjectOf(source)));
  }

  ghost predicate IsFlagsOf(s: FlagSource, source: Option<Source>) {
    source.Some? && s.path == source.value.path && HasFlags(source, s.flags)
  }

  /** The files that count: workspace, or user if that has no flags, then local; each with its path and its flags. */
  ghost predicate RightSources(list: Flags, workspace: Option<Source>, user: Option<Source>, local: Option<Source>) {
    var base := WithFlags(workspace) || WithFlags(user);
    && |list| == (if base then 1 else 0) + (if WithFlags(local) then 1 else 0)
    && (base ==> IsFlagsOf(list[0], if WithFlags(workspace) then workspace else user))
    && (WithFlags(local) ==> IsFlagsOf(list[|list| - 1], local))
  }

  /** The merged flags: those of workspace, or of user if that has none, then a space and those of local. */
  ghost predicate FlagsMerged(workspace: Option<Source>, user: Option<Source>, local: Option<Source>, merged: string) {
    var base := if WithFlags(workspace) then workspace else user;
    && (!WithFlags(base) && !WithFlags(local) ==> merged == "")
    && (forall f :: HasFlags(base, f) && !WithFlags(local) ==> merged == f)
    && (forall f :: HasFlags(local, f) && !WithFlags(base) ==> merged == f)
    && (forall f, g :: HasFlags(base, f) && HasFlags(local, g) ==> merged == f + " " + g)
  }

  lemma RightSourcesMerge(list: Flags, workspace: Option<Source>, user: Option<Source>, local: Option<Source>)
    requires AllDistinct([workspace, user, local]) && RightSources(list, workspace, user, local)
    ensures FlagsMerged(workspace, user, local, Joined(list))
  {
    assert [workspace, user, local][0] == workspace && [workspace, user, local][1] == user
           && [workspace, user, local][2] == local;
    FlagsOfFile(workspace);
    FlagsOfFile(user);
    FlagsOfFile(local);
  }

  function Joined(sources: seq<FlagSource>): string
    requires |sources| <= 2
  {
    if sources == [] then ""
    else if |sources| == 1 then sources[0].flags
    else sources[0].flags + " " + sources[1].flags
  }

  method JoinFlags(sources: seq<FlagSource>) returns (merged: string)
    requires |sources| <= 2 && forall s <- sources :: s.flags != ""
    ensures merged == Joined(sources)
  {
    merged := "";
    var i := 0;
    while i < |sources|
      invariant 0 <= i <= |sources|
      invariant i == 0 ==> merged == ""
      invariant i == 1 ==> merged == sources[0].flags
      invariant i == 2 ==> merged == sources[0].flags + " " + sources[1].flags
    {
      if merged != "" {
        merged := merged + " ";
      }
      merged := merged + sources[i].flags;
      i := i + 1;
    }
  }

  // ----- The whole -----

  datatype Outcome =
    | Failed
    | Merged(config: map<string, Json>, flagsByFile: Flags)

  function LoadedFiles(sources: seq<Option<Source>>): seq<Object> {
    if sources == [] then []
    else WithLoaded(LoadedFiles(sources[..|sources| - 1]), sources[|sources| - 1])
  }

  predicate HasField(o: Option<Object>, k: string) {
    o.Some? && Lookup(o.value, k).Some?
  }

  predicate NoBuilds(config: map<string, Json>) {
    match Get(config, "builds")
    case Some(Arr(items)) => items == []
    case _ => true
  }

  function WithLoaded(files: seq<Object>, source: Option<Source>): seq<Object> {
    match ObjectOf(source)
    case None => files
    case Some(o) => files + [o]
  }

  ghost predicate AllDistinct(sources: seq<Option<Source>>) {
    forall i :: 0 <= i < |sources| && ObjectOf(sources[i]).Some? ==> DistinctKeys(ObjectOf(sources[i]).value)
  }

  lemma LayerFileFailsIf(defaults: map<string, Json>, files: seq<Object>, o: Object, config: map<string, Json>)
    requires !SomeMixed(defaults, files) && LayeredConfig(defaults, files, config)
    ensures SomeMixed(defaults, files + [o]) <==>
              exists k :: Lookup(o, k).Some? && Clash(Get(config, k), Lookup(o, k).value)
  {
    if k :| Lookup(o, k).Some? && Clash(Get(config, k), Lookup(o, k).value) {
      LayerFileMore(defaults, files, o, config, k);
    }
    if k :| Mixed(ValuesOf(defaults, files + [o], k)) {
      LayerFileMore(defaults, files, o, config, k);
    }
  }

  lemma LayerFileLays(defaults: map<string, Json>, files: seq<Object>, o: Object, config: map<string, Json>,
                      config': map<string, Json>)
    requires !SomeMixed(defaults, files) && LayeredConfig(defaults, files, config)
    requires !SomeMixed(defaults, files + [o])
    requires forall k :: Get(config', k) == Laid(Get(config, k), Lookup(o, k))
    ensures LayeredConfig(defaults, files + [o], config')
  {
    forall k ensures Get(config', k) == Layered(ValuesOf(defaults, files + [o], k)) {
      LayerFileMore(defaults, files, o, config, k);
    }
  }

  /** Layers one source, if it loads, over the earlier ones. */
  method LayerSource(merge: Merge, source: Option<Source>, ghost defaults: map<string, Json>, ghost files: seq<Object>)
    returns (ok: bool)
    requires ObjectOf(source).Some? ==> DistinctKeys(ObjectOf(source).value)
    requires !SomeMixed(defaults, files) && LayeredConfig(defaults, files, merge.config)
    modifies merge
    ensures ok <==> !SomeMixed(defaults, WithLoaded(files, source))
    ensures ok ==> LayeredConfig(defaults, WithLoaded(files, source), merge.config)
  {
    var o := ObjectOf(source);
    ok := true;
    if o.Some? {
      ghost var before := merge.config;
      ok := merge.LayerFile(o.value);
      LayerFileFailsIf(defaults, files, o.value, before);
      if ok {
        LayerFileLays(defaults, files, o.value, before, merge.config);
      }
    }
  }

  /** Layers those of the sources that load, in order. */
  method LayerAll(defaults: map<string, Json>, sources: seq<Option<Source>>)
    returns (ok: bool, config: map<string, Json>)
    requires AllDistinct(sources)
    ensures ok <==> !SomeMixed(defaults, LoadedFiles(sources))
    ensures ok ==> LayeredConfig(defaults, LoadedFiles(sources), config)
  {
    var merge := new Merge(defaults);
    ok := true;
    DefaultsLayered(defaults);
    var i := 0;
    while i < |sources|
      invariant 0 <= i <= |sources| && fresh(merge)
      invariant ok <==> !SomeMixed(defaults, LoadedFiles(sources[..i]))
      invariant ok ==> LayeredConfig(defaults, LoadedFiles(sources[..i]), merge.config)
    {
      assert sources[..i + 1][..i] == sources[..i];
      ghost var files := LoadedFiles(sources[..i]);
      if ok {
        ok := LayerSource(merge, sources[i], defaults, files);
      } else if ObjectOf(sources[i]).Some? {
        MixedStays(defaults, files, ObjectOf(sources[i]).value);
      }
      i := i + 1;
    }
    assert sources[..i] == sources;
    config := merge.config;
  }

  /** The files whose flags are used, with them: workspace or else user, then local; none without flags. */
  method FlagsByFile(workspace: Option<Source>, user: Option<Source>, local: Option<Source>)
    returns (list: seq<FlagSource>)
    requires AllDistinct([workspace, user, local])
    ensures |list| <= 2 && RightSources(list, workspace, user, local)
    ensures forall s <- list :: s.flags != ""
  {
    assert [workspace, user, local][0] == workspace && [workspace, user, local][1] == user
           && [workspace, user, local][2] == local;
    FlagsOfFile(workspace);
    FlagsOfFile(user);
    FlagsOfFile(local);
    list := [];
    var wsFlags, userFlags := FlagsOf(ObjectOf(workspace)), FlagsOf(ObjectOf(user));
    if wsFlags != "" {
      list := list + [FlagSource(workspace.value.path, wsFlags)];
    } else if userFlags != "" {
      list := list + [FlagSource(user.value.path, userFlags)];
    }
    var localFlags := FlagsOf(ObjectOf(local));
    if localFlags != "" {
      list := list + [FlagSource(local.value.path, localFlags)];
    }
  }

  /** Fields other than these two are as layered. */
  ghost predicate OthersLayered(defaults: map<string, Json>, files: seq<Object>, config: map<string, Json>) {
    forall k :: k != "flags" && k != "buildPattern" ==> Get(config, k) == Layered(ValuesOf(defaults, files, k))
  }

  /** Some loaded file has a pattern for build files. */
  ghost predicate PatternGiven(sources: seq<Option<Source>>) {
    exists v :: SomeGives(sources, "buildPattern", v)
  }

  /** A loaded file, or the defaults, have builds. */
  ghost predicate BuildsGiven(defaults: map<string, Json>, sources: seq<Option<Source>>) {
    exists items :: items != [] && (SomeGives(sources, "builds", Arr(items)) || Get(defaults, "builds") == Some(Arr(items)))
  }

  /** A default pattern for build files applies if no file has one and there are no builds. */
  ghost predicate PatternSet(defaults: map<string, Json>, sources: seq<Option<Source>>, config: map<string, Json>) {
    Get(config, "buildPattern")
    == if !PatternGiven(sources) && !BuildsGiven(defaults, sources) then Some(Str("**/*.f"))
       else Layered(ValuesOf(defaults, LoadedFiles(sources), "buildPattern"))
  }

  /** The values a field was given are its default and what the loaded files pair it with. */
  lemma {:induction false} ValuesAreGiven(defaults: map<string, Json>, sources: seq<Option<Source>>, k: string, v: Json)
    requires AllDistinct(sources)
    ensures v in ValuesOf(defaults, LoadedFiles(sources), k) <==> Get(defaults, k) == Some(v) || SomeGives(sources, k, v)
  {
    if sources != [] {
      var n := |sources| - 1;
      var files := LoadedFiles(sources[..n]);
      ValuesAreGiven(defaults, sources[..n], k, v);
      LastGives(sources, k, v);
      if ObjectOf(sources[n]).Some? {
        var o := ObjectOf(sources[n]).value;
        assert (files + [o])[..|files|] == files;
        LookupIsMembership(o, k, v);
      }
    }
  }

  lemma LastGives(sources: seq<Option<Source>>, k: string, v: Json)
    requires sources != []
    ensures SomeGives(sources, k, v)
       <==> SomeGives(sources[..|sources| - 1], k, v) || Gives(sources[|sources| - 1], k, v)
  {
    var n := |sources| - 1;
    if i :| 0 <= i < n && Gives(sources[..n][i], k, v) {
      assert Gives(sources[i], k, v);
    }
    if i :| 0 <= i < |sources| && Gives(sources[i], k, v) {
      assert i < n ==> Gives(sources[..n][i], k, v);
    }
  }

  lemma {:induction false} ItemsOfSome(vals: seq<Json>)
    ensures Items(vals) != [] <==> exists items :: items != [] && Arr(items) in vals
  {
    if vals != [] {
      var n := |vals| - 1;
      ItemsOfSome(vals[..n]);
      assert vals == vals[..n] + [vals[n]];
      if vals[n].Arr? && vals[n].items != [] {
        assert vals[n] == Arr(vals[n].items) && Arr(vals[n].items) in vals;
      } else if items :| items != [] && Arr(items) in vals {
        assert Arr(items) in vals[..n];
      }
    }
  }

  /** A field that was given an array with items ends as such an array. */
  lemma ItemsRemain(vals: seq<Json>)
    requires !Mixed(vals)
    ensures (vals != [] && vals[|vals| - 1].Arr? && Items(vals) != [])
       <==> exists items :: items != [] && Arr(items) in vals
  {
    ItemsOfSome(vals);
    if vals != [] && !vals[|vals| - 1].Arr? {
      NoItemsBefore(vals);
    }
  }

  /** The merged object has builds exactly if some file or the defaults have. */
  lemma BuildsAreGiven(defaults: map<string, Json>, sources: seq<Option<Source>>, config: map<string, Json>)
    requires AllDistinct(sources) && !SomeMixed(defaults, LoadedFiles(sources))
    requires LayeredConfig(defaults, LoadedFiles(sources), config)
    ensures NoBuilds(config) <==> !BuildsGiven(defaults, sources)
  {
    var vals := ValuesOf(defaults, LoadedFiles(sources), "builds");
    assert Get(config, "builds") == Layered(vals) && !Mixed(vals);
    ItemsRemain(vals);
    forall items ensures Arr(items) in vals <==>
                           Get(defaults, "builds") == Some(Arr(items)) || SomeGives(sources, "builds", Arr(items))
    {
      ValuesAreGiven(defaults, sources, "builds", Arr(items));
    }
  }

  lemma PatternIsGiven(workspace: Option<Source>, user: Option<Source>, local: Option<Source>)
    requires AllDistinct([workspace, user, local])
    ensures PatternGiven([workspace, user, local])
       <==> HasField(ObjectOf(workspace), "buildPattern") || HasField(ObjectOf(user), "buildPattern")
            || HasField(ObjectOf(local), "buildPattern")
  {
    var sources := [workspace, user, local];
    FieldIsGiven(workspace, "buildPattern");
    FieldIsGiven(user, "buildPattern");
    FieldIsGiven(local, "buildPattern");
    assert sources[0] == workspace && sources[1] == user && sources[2] == local;
    if v :| Gives(workspace, "buildPattern", v) || Gives(user, "buildPattern", v) || Gives(local, "buildPattern", v) {
      assert SomeGives(sources, "buildPattern", v);
    }
  }

  lemma FieldIsGiven(source: Option<Source>, k: string)
    ensures HasField(ObjectOf(source), k) <==> exists v :: Gives(source, k, v)
  {
    if HasField(ObjectOf(source), k) {
      assert Gives(source, k, Lookup(ObjectOf(source).value, k).value);
    }
  }

  method Finish(layered: map<string, Json>, explicit: bool, flags: string,
                ghost defaults: map<string, Json>, ghost sources: seq<Option<Source>>)
    returns (config: map<string, Json>)
    requires LayeredConfig(defaults, LoadedFiles(sources), layered)
    requires explicit == PatternGiven(sources) && NoBuilds(layered) == !BuildsGiven(defaults, sources)
    ensures OthersLayered(defaults, LoadedFiles(sources), config) && PatternSet(defaults, sources, config)
    ensures Get(config, "flags") == Some(Str(flags))
  {
    config := layered;
    assert Get(config, "buildPattern") == Layered(ValuesOf(defaults, LoadedFiles(sources), "buildPattern"));
    if !explicit && NoBuilds(config) {
      config := config["buildPattern" := Str("**/*.f")];
    }
    config := config["flags" := Str(flags)];
  }

  /** Workspace, user and local configuration, each optional. */
  method FromFiles(defaults: map<string, Json>,
                   workspace: Option<Source>, user: Option<Source>, local: Option<Source>)
    returns (r: Outcome)
    requires AllDistinct([workspace, user, local])
    ensures r.Failed? <==> SomeMixed(defaults, LoadedFiles([workspace, user, local]))
    ensures r.Merged? ==> OthersLayered(defaults, LoadedFiles([workspace, user, local]), r.config)
    ensures r.Merged? ==>
              && RightSources(r.flagsByFile, workspace, user, local)
              && Get(r.config, "flags") == Some(Str(Joined(r.flagsByFile)))
              && FlagsMerged(workspace, user, local, Joined(r.flagsByFile))
    ensures r.Merged? ==> PatternSet(defaults, [workspace, user, local], r.config)
  {
    var sources := [workspace, user, local];
    var ok, config := LayerAll(defaults, sources);
    if !ok {
      return Failed;
    }
    var workspaceObj, userObj, localObj := ObjectOf(workspace), ObjectOf(user), ObjectOf(local);
    var explicit := HasField(workspaceObj, "buildPattern") || HasField(userObj, "buildPattern")
                    || HasField(localObj, "buildPattern");
    PatternIsGiven(workspace, user, local);
    BuildsAreGiven(defaults, sources, config);
    var flagsByFile := FlagsByFile(workspace, user, local);
    RightSourcesMerge(flagsByFile, workspace, user, local);
    var merged := JoinFlags(flagsByFile);
    config := Finish(config, explicit, merged, defaults, sources);
    r := Merged(config, flagsByFile);
  }

  // ----- What it means for the fields -----

  /** Files are layered in the order given, those that do not load left out. */
  lemma LoadedInOrder(sources: seq<Option<Source>>, source: Option<Source>)
    ensures LoadedFiles(sources + [source])
         == LoadedFiles(sources)
            + if source.Some? && source.value.file.Loaded? then [source.value.file.fields] else []
    ensures LoadedFiles([]) == []
  {
    assert (sources + [source])[..|sources|] == sources;
  }

  /** Fields that hold arrays by default and in every file: the items of all files, in order. */
  lemma {:induction false} ArraysConcatenate(defaults: map<string, Json>, files: seq<Object>, k: string)
    requires k in defaults && defaults[k].Arr?
    requires forall i :: 0 <= i < |files| && Lookup(files[i], k).Some? ==> Lookup(files[i], k).value.Arr?
    ensures !Mixed(ValuesOf(defaults, files, k))
    ensures Layered(ValuesOf(defaults, files, k)) == Some(Arr(defaults[k].items + AllItems(files, k)))
  {
    if files == [] {
      LayeredOne(defaults[k]);
      assert defaults[k].items + [] == defaults[k].items;
    } else {
      var n := |files| - 1;
      var before := files[..n];
      assert forall i :: 0 <= i < n ==> before[i] == files[i];
      ArraysConcatenate(defaults, before, k);
      if Lookup(files[n], k).Some? {
        var v := Lookup(files[n], k).value;
        ArraysMore(ValuesOf(defaults, before, k), defaults[k].items + AllItems(before, k), v);
        Regroup(defaults[k].items, AllItems(before, k), v.items);
      }
    }
  }

  lemma ArraysMore(vals: seq<Json>, items: seq<Json>, v: Json)
    requires !Mixed(vals) && Layered(vals) == Some(Arr(items)) && v.Arr?
    ensures !Mixed(vals + [v]) && Layered(vals + [v]) == Some(Arr(items + v.items))
  {
    LayerMore(vals, v);
  }

  lemma Regroup(a: seq<Json>, b: seq<Json>, c: seq<Json>)
    ensures a + b + c == a + (b + c)
  {
  }

  function AllItems(files: seq<Object>, k: string): seq<Json> {
    if files == [] then []
    else
      var before := AllItems(files[..|files| - 1], k);
      match Lookup(files[|files| - 1], k)
      case Some(Arr(items)) => before + items
      case _ => before
  }

  /** Fields that never hold arrays: the last file that has the field decides. */
  lemma {:induction false} LastScalarWins(defaults: map<string, Json>, files: seq<Object>, k: string, n: nat)
    requires n < |files| && Lookup(files[n], k).Some?
    requires forall i :: n < i < |files| ==> Lookup(files[i], k).None?
    requires k in defaults ==> !defaults[k].Arr?
    requires forall i :: 0 <= i < |files| && Lookup(files[i], k).Some? ==> !Lookup(files[i], k).value.Arr?
    ensures Layered(ValuesOf(defaults, files, k)) == Lookup(files[n], k)
  {
    if n < |files| - 1 {
      LastScalarWins(defaults, files[..|files| - 1], k, n);
    }
  }

  lemma {:induction false} ScalarsNeverMix(defaults: map<string, Json>, files: seq<Object>, k: string)
    requires k in defaults ==> !defaults[k].Arr?
    requires forall i :: 0 <= i < |files| && Lookup(files[i], k).Some? ==> !Lookup(files[i], k).value.Arr?
    ensures forall v <- ValuesOf(defaults, files, k) :: !v.Arr?
    ensures !Mixed(ValuesOf(defaults, files, k))
  {
    if files != [] {
      ScalarsNeverMix(defaults, files[..|files| - 1], k);
    }
  }

  /** The documented merge has an exception: a field no schema knows, an array in one file and a number in the next. */
  lemma UnknownFieldFails()
    ensures SomeMixed(map[], [[("extra", Arr([]))], [("extra", Number(1))]])
  {
    var a, b := [("extra", Arr([]))], [("extra", Number(1))];
    assert [a, b][..1] == [a] && [a][..0] == [];
    assert Lookup(a, "extra") == Some(Arr([])) && Lookup(b, "extra") == Some(Number(1));
    var none: map<string, Json> := map[];
    assert ValuesOf(none, [a], "extra") == [] + [Arr([])];
    var vals := ValuesOf(none, [a, b], "extra");
    assert vals == ValuesOf(none, [a], "extra") + [Number(1)];
    assert Drops(vals, 0);
    assert Mixed(vals);
  }
}
