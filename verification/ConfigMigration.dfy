/**
 The schema migration of a workspace's configuration (src/core/workspace/Workspace.js): where the readers find
 storage, services and directories in an old or a new workspace.json, and that rewriting one changes nothing of it.
 */
module ConfigMigration {
  import opened Wrappers
  import opened Json

  // ---- Defaults (src/core/workspace/lib/constants.js) ----

  datatype Layout = Full | Home

  const ROOT_MARK := "{WORKSPACE_ROOT}"

  datatype Dir = DbDir | ConfigDir | CacheDir | DataDir | HomeDir | StoredDir | GitDir | HooksDir | RolesDir | VarDir | VarHooksDir | VarTmpDir

  /** The key of a directory in a `directories` map. */
  function DirKey(dir: Dir): string {
    match dir
    case DbDir => "db"
    case ConfigDir => "config"
    case CacheDir => "cache"
    case DataDir => "data"
    case HomeDir => "home"
    case StoredDir => "stored"
    case GitDir => "git"
    case HooksDir => "hooks"
    case RolesDir => "roles"
    case VarDir => "var"
    case VarHooksDir => "varHooks"
    case VarTmpDir => "varTmp"
  }

  /** Its key in an `internals` map. */
  function InternalsKey(dir: Dir): string {
    if dir.VarTmpDir? then "tmp" else DirKey(dir)
  }

  function FullDirectory(dir: Dir): string {
    match dir
    case StoredDir => "db/stored"
    case HooksDir => "git/hooks"
    case VarHooksDir => "var/hooks"
    case VarTmpDir => "var/tmp"
    case _ => DirKey(dir)
  }

  function Directory(layout: Layout, dir: Dir): string {
    if layout.Full? then FullDirectory(dir)
    else if dir.HomeDir? then "."
    else ".workspace/" + FullDirectory(dir)
  }

  /** The directories an `internals` map has defaults for. */
  predicate IsInternal(dir: Dir) { dir.DbDir? || dir.ConfigDir? || dir.VarDir? || dir.VarTmpDir? }

  function InternalDefault(layout: Layout, dir: Dir): string
    requires IsInternal(dir)
  {
    match layout
    case Full => ROOT_MARK + "/" + (if dir.VarTmpDir? then "var/tmp" else InternalsKey(dir))
    case Home => ROOT_MARK + "/" + ".workspace/" + (if dir.VarTmpDir? then "var/tmp" else InternalsKey(dir))
  }

  function StorageBackends(layout: Layout): map<string, Fields> {
    map[
      "workspace:home" := map["enabled" := Bool(true), "supported" := Bool(true), "driver" := Str("file"),
                              "root" := Str(if layout.Home? then ROOT_MARK else ROOT_MARK + "/home"),
                              "watch" := Bool(true), "resync" := Bool(true), "exclude" := Arr([]), "readOnly" := Bool(false)],
      "workspace:data" := map["enabled" := Bool(true), "supported" := Bool(true), "driver" := Str("cacache"),
                              "root" := Str(ROOT_MARK + (if layout.Home? then "/.workspace/data" else "/data")),
                              "managed" := Bool(true), "watch" := Bool(false), "resync" := Bool(false)],
      "s3" := map["enabled" := Bool(false), "supported" := Bool(false)]]
  }

  function AsObjects(m: map<string, Fields>): Fields {
    map k | k in m :: Obj(m[k])
  }

  function StoredDefault(layout: Layout): Fields {
    map["root" := Str(ROOT_MARK + "/" + Directory(layout, StoredDir)),
        "cache" := Str(ROOT_MARK + "/" + Directory(layout, CacheDir)),
        "sync" := Obj(map["policies" := Arr([])]),
        "backends" := Obj(AsObjects(StorageBackends(layout)))]
  }

  // ---- What readers see ----

  function LayoutOf(c: Fields): Layout {
    if Get(c, "layout") == Some(Str("home")) then Home else Full
  }

  function LayoutName(layout: Layout): string {
    match layout case Home => "home" case Full => "full"
  }

  predicate IsObject(v: Value) { v.Some? && (v.value.Obj? || v.value.Arr?) }

  function FieldsAt(m: Fields, key: string): Fields { FieldsOf(Get(m, key)) }

  /** Every entry of the defaults or the overrides, with the fields of both; the overriding ones win. */
  function MergedConfigMap(defaults: map<string, Fields>, overrides: Fields): map<string, Fields> {
    map k | k in defaults.Keys + overrides.Keys ::
      (if k in defaults then defaults[k] else map[]) + FieldsAt(overrides, k)
  }

  /** The storage configuration: its backends, and the root, cache and whatever else it has. */
  datatype Stored = Stored(settings: Fields, backends: map<string, Fields>)

  /** The cache as it is without the fake backend it used to be. */
  function PlainCache(layout: Layout, dirs: Fields): Value {
    OrElse(Get(dirs, "cache"), Get(StoredDefault(layout), "cache"))
  }

  /** The storage configuration an old workspace.json amounts to. */
  function LegacyStored(layout: Layout, dirs: Fields, legacy: Fields): Fields {
    var root := OrElse(Get(dirs, "stored"), Get(StoredDefault(layout), "root"));
    var cache := OrElse(Get(FieldsAt(legacy, "stored.cache"), "root"), PlainCache(layout, dirs));
    StoredDefault(layout)["root" := root.value]["cache" := cache.value]["backends" := Obj(legacy - {"stored.cache"})]
  }

  function StoredConfig(c: Fields): Stored {
    var layout, configured := LayoutOf(c), Get(FieldsAt(c, "services"), "stored");
    if Truthy(configured) && IsObject(configured) then
      Stored((StoredDefault(layout) + FieldsOf(configured)) - {"backends"},
             MergedConfigMap(StorageBackends(layout), FieldsAt(FieldsOf(configured), "backends")))
    else
      var legacy := LegacyStored(layout, FieldsAt(c, "directories"), FieldsAt(c, "dataBackends"));
      Stored(legacy - {"backends"}, MergedConfigMap(StorageBackends(layout), FieldsAt(legacy, "backends")))
  }

  /** The configuration of a service, except that of storage, which has its own reader. */
  function Service(c: Fields, defaults: map<string, Fields>, name: string): Fields {
    (if name in defaults then defaults[name] else map[]) + FieldsAt(FieldsAt(c, "services"), name)
  }

  // ---- Paths ----

  predicate StartsWith(s: string, prefix: string) { |prefix| <= |s| && s[..|prefix|] == prefix }

  predicate Contains(s: string, part: string) {
    StartsWith(s, part) || (s != "" && Contains(s[1..], part))
  }

  /** Every occurrence of the root mark replaced. */
  function WithRoot(s: string, root: string): string
    decreases |s|
  {
    if s == "" then ""
    else if StartsWith(s, ROOT_MARK) then root + WithRoot(s[|ROOT_MARK|..], root)
    else [s[0]] + WithRoot(s[1..], root)
  }

  datatype Resolved = NoPath | Path(path: string) | Throws

  /** A configured path made absolute; `normal` is the normalization of `path.resolve`. */
  function ResolvedPath(v: Value, root: string, normal: string -> string): Resolved {
    if !Truthy(v) then NoPath
    else
      match v.value
      case Str(s) =>
        Path(normal(if Contains(s, ROOT_MARK) then WithRoot(s, root) else if s[0] == '/' then s else root + "/" + s))
      case _ => Throws
  }

  /** Where a directory is configured to be; the layout only supplies the fallback. */
  function DirValue(c: Fields, dir: Dir): Value {
    OrElse(Get(FieldsAt(c, "internals"), InternalsKey(dir)),
           OrElse(Get(FieldsAt(c, "directories"), DirKey(dir)), Some(Str(Directory(LayoutOf(c), dir)))))
  }

  function ResolvedDir(c: Fields, dir: Dir, root: string, normal: string -> string): Resolved {
    ResolvedPath(DirValue(c, dir), root, normal)
  }

  function OrDir(r: Resolved, dir: Resolved): Resolved { if r.NoPath? then dir else r }

  function StoredRootPath(c: Fields, root: string, normal: string -> string): Resolved {
    OrDir(ResolvedPath(Get(StoredConfig(c).settings, "root"), root, normal), ResolvedDir(c, StoredDir, root, normal))
  }

  function CachePath(c: Fields, root: string, normal: string -> string): Resolved {
    OrDir(ResolvedPath(Get(StoredConfig(c).settings, "cache"), root, normal), ResolvedDir(c, CacheDir, root, normal))
  }

  function BackendRoot(c: Fields, backend: string, dir: Dir, root: string, normal: string -> string): Resolved
  {
    var backends := StoredConfig(c).backends;
    OrDir(ResolvedPath(if backend in backends then Get(backends[backend], "root") else None, root, normal),
          ResolvedDir(c, dir, root, normal))
  }

  // ---- The migration ----

  function WithStored(c: Fields): Fields {
    var services, legacy := FieldsAt(c, "services"), Get(c, "dataBackends");
    if !Truthy(Get(services, "stored")) && Truthy(legacy) && IsObject(legacy) then
      c["services" := Obj(services["stored" := Obj(LegacyStored(LayoutOf(c), FieldsAt(c, "directories"), FieldsOf(legacy)))])]
    else c
  }

  function WithoutLegacy(c: Fields): Fields {
    if "dataBackends" in c && Truthy(Get(FieldsAt(c, "services"), "stored")) then c - {"dataBackends"} else c
  }

  function InternalOr(dirs: Fields, dir: Dir, layout: Layout): Value
    requires IsInternal(dir)
  {
    OrElse(Get(dirs, DirKey(dir)), Some(Str(InternalDefault(layout, dir))))
  }

  function NewInternals(dirs: Fields, layout: Layout): Fields {
    map["db" := InternalOr(dirs, DbDir, layout).value,
        "config" := InternalOr(dirs, ConfigDir, layout).value,
        "var" := InternalOr(dirs, VarDir, layout).value,
        "tmp" := InternalOr(dirs, VarTmpDir, layout).value]
  }

  function WithInternals(c: Fields): Fields {
    if Truthy(Get(c, "internals")) then c
    else c["internals" := Obj(NewInternals(FieldsAt(c, "directories"), LayoutOf(c)))]
  }

  function WithLayout(c: Fields): Fields {
    if Truthy(Get(c, "layout")) then c else c["layout" := Str(LayoutName(LayoutOf(c)))]
  }

  function Migrated(c: Fields): Fields { WithLayout(WithInternals(WithoutLegacy(WithStored(c)))) }

  class Workspace {
    var config: Fields

    constructor (config: Fields)
      ensures this.config == config
    {
      this.config := config;
    }

    method MigrateConfigSchema()
      modifies this
      ensures config == Migrated(old(config))
    {
      var services, legacy, layout := FieldsAt(config, "services"), Get(config, "dataBackends"), LayoutOf(config);
      var dirs := FieldsAt(config, "directories");
      if !Truthy(Get(services, "stored")) && Truthy(legacy) && IsObject(legacy) {
        var stored := LegacyStored(layout, dirs, FieldsOf(legacy));
        config := config["services" := Obj(services["stored" := Obj(stored)])];
      }
      assert config == WithStored(old(config));
      if "dataBackends" in config && Truthy(Get(FieldsAt(config, "services"), "stored")) {
        config := config - {"dataBackends"};
      }
      assert config == WithoutLegacy(WithStored(old(config)));
      StorageStepsFrame(old(config));
      if !Truthy(Get(config, "internals")) {
        config := config["internals" := Obj(NewInternals(dirs, layout))];
      }
      assert config == WithInternals(WithoutLegacy(WithStored(old(config))));
      if !Truthy(Get(config, "layout")) {
        config := config["layout" := Str(LayoutName(LayoutOf(config)))];
      }
    }
  }

  // ---- What each step leaves as it was ----

  lemma StoredFrame(c: Fields)
    ensures var t := WithStored(c);
            && Get(t, "layout") == Get(c, "layout") && Get(t, "internals") == Get(c, "internals")
            && Get(t, "directories") == Get(c, "directories")
            && forall name :: name != "stored" ==> FieldsAt(FieldsAt(t, "services"), name) == FieldsAt(FieldsAt(c, "services"), name)
  {
  }

  lemma LegacyFrame(c: Fields)
    ensures var t := WithoutLegacy(c); forall k :: k != "dataBackends" ==> Get(t, k) == Get(c, k)
  {
  }

  /** The steps on storage touch nothing but that. */
  lemma StorageStepsFrame(c: Fields)
    ensures var t := WithoutLegacy(WithStored(c));
            && LayoutOf(t) == LayoutOf(c) && Get(t, "layout") == Get(c, "layout") && Get(t, "internals") == Get(c, "internals")
            && FieldsAt(t, "directories") == FieldsAt(c, "directories")
            && forall name :: name != "stored" ==> FieldsAt(FieldsAt(t, "services"), name) == FieldsAt(FieldsAt(c, "services"), name)
  {
    StoredFrame(c);
    LegacyFrame(WithStored(c));
  }

  lemma MigrationKeepsLayout(c: Fields)
    ensures LayoutOf(Migrated(c)) == LayoutOf(c)
  {
  }

  /** Rewriting the old form and reading it gives what reading the old form gives. */
  lemma StoredStepKeepsMeaning(c: Fields)
    ensures StoredConfig(WithStored(c)) == StoredConfig(c)
  {
    var t := WithStored(c);
    if t != c {
      var layout := LayoutOf(c);
      var legacy := LegacyStored(layout, FieldsAt(c, "directories"), FieldsAt(c, "dataBackends"));
      assert LayoutOf(t) == layout && FieldsAt(t, "services")["stored"] == Obj(legacy);
      assert StoredDefault(layout) + legacy == legacy;
    }
  }

  lemma LaterStepsKeepStored(c: Fields)
    ensures StoredConfig(WithLayout(WithInternals(c))) == StoredConfig(c)
  {
    var t := WithLayout(WithInternals(c));
    assert LayoutOf(t) == LayoutOf(c);
    assert FieldsAt(t, "services") == FieldsAt(c, "services");
    assert FieldsAt(t, "dataBackends") == FieldsAt(c, "dataBackends");
    assert FieldsAt(t, "directories") == FieldsAt(c, "directories");
  }

  /** `services.stored` holds something that is neither an object nor nothing. */
  predicate ScalarStored(c: Fields) {
    var configured := Get(FieldsAt(c, "services"), "stored");
    Truthy(configured) && !IsObject(configured)
  }

  /** The old form says nothing that the directories and the defaults do not. */
  predicate AddsNothing(c: Fields) {
    var legacy, cache, known := FieldsAt(c, "dataBackends"), PlainCache(LayoutOf(c), FieldsAt(c, "directories")), StorageBackends(LayoutOf(c));
    && OrElse(Get(FieldsAt(legacy, "stored.cache"), "root"), cache) == cache
    && forall k :: k in legacy && k != "stored.cache" ==> k in known && Redundant(known[k], FieldsAt(legacy, k))
  }

  predicate Redundant(defaults: Fields, overrides: Fields) {
    forall f :: f in overrides ==> f in defaults && defaults[f] == overrides[f]
  }

  lemma RedundantAddsNothing(defaults: Fields, overrides: Fields)
    ensures defaults + overrides == defaults <==> Redundant(defaults, overrides)
  {
    var sum := defaults + overrides;
    assert forall f :: f in overrides ==> f in sum && sum[f] == overrides[f];
    if Redundant(defaults, overrides) {
      assert sum == defaults;
    }
  }

  lemma MergedAt(defaults: map<string, Fields>, overrides: Fields, k: string)
    requires k in defaults
    ensures MergedConfigMap(defaults, overrides)[k] == defaults[k] <==> Redundant(defaults[k], FieldsAt(overrides, k))
  {
    RedundantAddsNothing(defaults[k], FieldsAt(overrides, k));
  }

  lemma NothingMerged(defaults: map<string, Fields>)
    ensures MergedConfigMap(defaults, map[]) == defaults
  {
    forall k | k in defaults ensures MergedConfigMap(defaults, map[])[k] == defaults[k] {
      MergedAt(defaults, map[], k);
    }
  }

  lemma MergedUnchanged(defaults: map<string, Fields>, overrides: Fields)
    ensures MergedConfigMap(defaults, overrides) == MergedConfigMap(defaults, map[])
            <==> forall k :: k in overrides ==> k in defaults && Redundant(defaults[k], FieldsAt(overrides, k))
  {
    var merged := MergedConfigMap(defaults, overrides);
    NothingMerged(defaults);
    forall k | k in defaults ensures merged[k] == defaults[k] <==> Redundant(defaults[k], FieldsAt(overrides, k)) {
      MergedAt(defaults, overrides, k);
    }
    assert merged.Keys == defaults.Keys + overrides.Keys;
    if forall k :: k in overrides ==> k in defaults && Redundant(defaults[k], FieldsAt(overrides, k)) {
      forall k | k in merged ensures k in defaults && merged[k] == defaults[k] {
      }
      assert merged == defaults;
    }
  }

  /** A configuration that still has the old form, read without it. */
  lemma LegacyAddsNothing(layout: Layout, dirs: Fields, legacy: Fields)
    ensures var with_, without := LegacyStored(layout, dirs, legacy), LegacyStored(layout, dirs, map[]);
            && (with_ - {"backends"} == without - {"backends"}
                <==> OrElse(Get(FieldsAt(legacy, "stored.cache"), "root"), PlainCache(layout, dirs)) == PlainCache(layout, dirs))
            && FieldsAt(with_, "backends") == legacy - {"stored.cache"} && FieldsAt(without, "backends") == map[]
  {
    var with_, without := LegacyStored(layout, dirs, legacy), LegacyStored(layout, dirs, map[]);
    assert (with_ - {"backends"})["cache"] == with_["cache"] && (without - {"backends"})["cache"] == without["cache"];
    var none: Fields := map[];
    assert none - {"stored.cache"} == none;
  }

  /** What is read, for a configuration whose storage configuration is not an object. */
  lemma LegacyRead(c: Fields)
    requires var configured := Get(FieldsAt(c, "services"), "stored"); !(Truthy(configured) && IsObject(configured))
    ensures var legacy := LegacyStored(LayoutOf(c), FieldsAt(c, "directories"), FieldsAt(c, "dataBackends"));
            StoredConfig(c) == Stored(legacy - {"backends"}, MergedConfigMap(StorageBackends(LayoutOf(c)), FieldsAt(legacy, "backends")))
  {
  }

  lemma BackendsUnchanged(known: map<string, Fields>, legacy: Fields)
    ensures MergedConfigMap(known, legacy - {"stored.cache"}) == MergedConfigMap(known, map[])
            <==> forall k :: k in legacy && k != "stored.cache" ==> k in known && Redundant(known[k], FieldsAt(legacy, k))
  {
    MergedUnchanged(known, legacy - {"stored.cache"});
    assert forall k :: k != "stored.cache" ==> FieldsAt(legacy - {"stored.cache"}, k) == FieldsAt(legacy, k);
  }

  lemma ReadWithoutLegacy(c: Fields, t: Fields)
    requires var configured := Get(FieldsAt(c, "services"), "stored"); !(Truthy(configured) && IsObject(configured))
    requires LayoutOf(t) == LayoutOf(c) && FieldsAt(t, "directories") == FieldsAt(c, "directories")
    requires FieldsAt(t, "services") == FieldsAt(c, "services") && FieldsAt(t, "dataBackends") == map[]
    ensures StoredConfig(t) == StoredConfig(c) <==> AddsNothing(c)
  {
    var layout, dirs, legacy := LayoutOf(c), FieldsAt(c, "directories"), FieldsAt(c, "dataBackends");
    LegacyRead(c);
    LegacyRead(t);
    LegacyAddsNothing(layout, dirs, legacy);
    BackendsUnchanged(StorageBackends(layout), legacy);
  }

  /** Deleting the old form changes nothing unless it is still what readers go by. */
  lemma DeletionKeepsMeaning(c: Fields)
    ensures StoredConfig(WithoutLegacy(c)) == StoredConfig(c) <==> !ScalarStored(c) || "dataBackends" !in c || AddsNothing(c)
  {
    var t := WithoutLegacy(c);
    if t != c {
      assert LayoutOf(t) == LayoutOf(c) && FieldsAt(t, "directories") == FieldsAt(c, "directories");
      assert FieldsAt(t, "services") == FieldsAt(c, "services") && FieldsAt(t, "dataBackends") == map[];
      if ScalarStored(c) {
        ReadWithoutLegacy(c, t);
      }
    }
  }

  // ---- Directories ----

  lemma {:induction false} PlainText(s: string, root: string)
    requires '{' !in s
    ensures !Contains(s, ROOT_MARK) && WithRoot(s, root) == s
  {
    if s != "" {
      assert '{' !in s[1..];
      PlainText(s[1..], root);
      assert ROOT_MARK[0] == '{' && s[0] != '{';
    }
  }

  /** A path below the root mark and the same path relative to the root lead to one place. */
  lemma TemplateResolves(path: string, root: string, normal: string -> string)
    requires path != "" && path[0] != '/' && '{' !in path
    ensures ResolvedPath(Some(Str(ROOT_MARK + "/" + path)), root, normal) == ResolvedPath(Some(Str(path)), root, normal)
  {
    var template := ROOT_MARK + "/" + path;
    PlainText(path, root);
    PlainText("/" + path, root);
    assert template[..|ROOT_MARK|] == ROOT_MARK && template[|ROOT_MARK|..] == "/" + path;
    assert root + ("/" + path) == root + "/" + path;
  }

  lemma DefaultsAgree(layout: Layout, dir: Dir, root: string, normal: string -> string)
    requires IsInternal(dir)
    ensures ResolvedPath(Some(Str(InternalDefault(layout, dir))), root, normal)
         == ResolvedPath(Some(Str(Directory(layout, dir))), root, normal)
  {
    var path := Directory(layout, dir);
    assert InternalDefault(layout, dir) == ROOT_MARK + "/" + path;
    assert '{' !in path;
    TemplateResolves(path, root, normal);
  }

  lemma NewInternalsAt(dirs: Fields, layout: Layout, dir: Dir)
    ensures Get(NewInternals(dirs, layout), InternalsKey(dir)) == if IsInternal(dir) then InternalOr(dirs, dir, layout) else None
  {
  }

  /** Before and after the internals are written out, the value for a directory is the same or a default. */
  lemma InternalsStepValue(c: Fields, dir: Dir)
    requires !Truthy(Get(c, "internals"))
    ensures var dirs, layout := FieldsAt(c, "directories"), LayoutOf(c);
            && DirValue(c, dir) == OrElse(Get(dirs, DirKey(dir)), Some(Str(Directory(layout, dir))))
            && DirValue(WithInternals(c), dir) == if IsInternal(dir) then InternalOr(dirs, dir, layout) else DirValue(c, dir)
  {
    var t, dirs, layout := WithInternals(c), FieldsAt(c, "directories"), LayoutOf(c);
    NewInternalsAt(dirs, layout, dir);
    assert FieldsAt(c, "internals") == map[] && FieldsAt(t, "internals") == NewInternals(dirs, layout);
    assert LayoutOf(t) == layout && FieldsAt(t, "directories") == dirs;
  }

  lemma InternalsStepKeepsDirs(c: Fields, dir: Dir, root: string, normal: string -> string)
    ensures ResolvedDir(WithInternals(c), dir, root, normal) == ResolvedDir(c, dir, root, normal)
  {
    if !Truthy(Get(c, "internals")) {
      InternalsStepValue(c, dir);
      if IsInternal(dir) {
        DefaultsAgree(LayoutOf(c), dir, root, normal);
      }
    }
  }

  /** The steps on storage leave alone what directories are read from, and so does the last one. */
  lemma StorageStepsKeepDirs(c: Fields, dir: Dir)
    ensures DirValue(WithoutLegacy(WithStored(c)), dir) == DirValue(c, dir)
  {
    StorageStepsFrame(c);
  }

  lemma LayoutStepKeepsDirs(c: Fields, dir: Dir)
    ensures DirValue(WithLayout(c), dir) == DirValue(c, dir)
  {
    var t := WithLayout(c);
    assert LayoutOf(t) == LayoutOf(c) && FieldsAt(t, "internals") == FieldsAt(c, "internals");
    assert FieldsAt(t, "directories") == FieldsAt(c, "directories");
  }

  lemma MigrationKeepsDirs(c: Fields, dir: Dir, root: string, normal: string -> string)
    ensures ResolvedDir(Migrated(c), dir, root, normal) == ResolvedDir(c, dir, root, normal)
  {
    var without := WithoutLegacy(WithStored(c));
    StorageStepsKeepDirs(c, dir);
    InternalsStepKeepsDirs(without, dir, root, normal);
    LayoutStepKeepsDirs(WithInternals(without), dir);
  }

  // ---- The whole migration ----

  lemma MigrationKeepsServices(c: Fields, defaults: map<string, Fields>, name: string)
    requires name != "stored"
    ensures Service(Migrated(c), defaults, name) == Service(c, defaults, name)
  {
    StorageStepsFrame(c);
    var without := WithoutLegacy(WithStored(c));
    assert FieldsAt(WithLayout(WithInternals(without)), "services") == FieldsAt(without, "services");
  }

  lemma ScalarStoredIsLeft(c: Fields)
    ensures if ScalarStored(c) then WithStored(c) == c else !ScalarStored(WithStored(c))
  {
  }

  lemma MigrationKeepsStored(c: Fields)
    ensures StoredConfig(Migrated(c)) == StoredConfig(c) <==> !ScalarStored(c) || "dataBackends" !in c || AddsNothing(c)
  {
    var stored := WithStored(c);
    ScalarStoredIsLeft(c);
    StoredStepKeepsMeaning(c);
    DeletionKeepsMeaning(stored);
    LaterStepsKeepStored(WithoutLegacy(stored));
  }

  /**
   Migrating changes nothing readers resolve: layout, directories and services stay for every configuration, and
   the storage configuration stays exactly unless `services.stored` is a scalar beside an old form that says
   something of its own.
   */
  lemma MigrationKeepsMeaning(c: Fields, root: string, normal: string -> string)
    ensures LayoutOf(Migrated(c)) == LayoutOf(c)
    ensures forall dir :: ResolvedDir(Migrated(c), dir, root, normal) == ResolvedDir(c, dir, root, normal)
    ensures StoredConfig(Migrated(c)) == StoredConfig(c) <==> !ScalarStored(c) || "dataBackends" !in c || AddsNothing(c)
  {
    MigrationKeepsLayout(c);
    MigrationKeepsStored(c);
    forall dir ensures ResolvedDir(Migrated(c), dir, root, normal) == ResolvedDir(c, dir, root, normal) {
      MigrationKeepsDirs(c, dir, root, normal);
    }
  }

  lemma PathsFollow(c: Fields, t: Fields, root: string, normal: string -> string, backend: string, dir: Dir)
    requires StoredConfig(t) == StoredConfig(c)
    requires forall d :: ResolvedDir(t, d, root, normal) == ResolvedDir(c, d, root, normal)
    ensures StoredRootPath(t, root, normal) == StoredRootPath(c, root, normal)
    ensures CachePath(t, root, normal) == CachePath(c, root, normal)
    ensures BackendRoot(t, backend, dir, root, normal) == BackendRoot(c, backend, dir, root, normal)
  {
  }

  /** So stored, its cache and its backends are found where they were. */
  lemma MigrationKeepsPaths(c: Fields, root: string, normal: string -> string, backend: string, dir: Dir)
    requires !ScalarStored(c) || "dataBackends" !in c || AddsNothing(c)
    ensures StoredRootPath(Migrated(c), root, normal) == StoredRootPath(c, root, normal)
    ensures CachePath(Migrated(c), root, normal) == CachePath(c, root, normal)
    ensures BackendRoot(Migrated(c), backend, dir, root, normal) == BackendRoot(c, backend, dir, root, normal)
  {
    MigrationKeepsMeaning(c, root, normal);
    PathsFollow(c, Migrated(c), root, normal, backend, dir);
  }

  /** Whatever the configuration, a second migration has nothing to do. */
  lemma MigrationIsIdempotent(c: Fields)
    ensures Migrated(Migrated(c)) == Migrated(c)
  {
    var stored := WithStored(c);
    var without := WithoutLegacy(stored);
    assert WithStored(without) == without && WithoutLegacy(without) == without;
    LaterStepsSettle(without);
  }

  lemma LaterStepsSettle(c: Fields)
    requires WithStored(c) == c && WithoutLegacy(c) == c
    ensures Migrated(WithLayout(WithInternals(c))) == WithLayout(WithInternals(c))
  {
    var t := WithLayout(WithInternals(c));
    assert FieldsAt(t, "services") == FieldsAt(c, "services") && Get(t, "dataBackends") == Get(c, "dataBackends");
    assert Truthy(Get(t, "internals")) && Truthy(Get(t, "layout"));
    assert WithStored(t) == t && WithoutLegacy(t) == t;
  }

  /** A backend only the old form knows is found before the migration, and is not after it, if `stored` is a scalar. */
  lemma ScalarStoredLosesBackend(c: Fields, name: string)
    requires ScalarStored(c) && name in FieldsAt(c, "dataBackends") && name != "stored.cache" && name !in StorageBackends(LayoutOf(c))
    ensures StoredConfig(Migrated(c)) != StoredConfig(c)
  {
    MigrationKeepsStored(c);
  }

  /** Such a configuration: a `stored` that only says true, beside a backend of one's own. */
  lemma TrueStoredLosesMine(backend: Json)
    ensures var c: Fields := map["services" := Obj(map["stored" := Bool(true)]), "dataBackends" := Obj(map["mine" := backend])];
            StoredConfig(Migrated(c)) != StoredConfig(c)
  {
    var c: Fields := map["services" := Obj(map["stored" := Bool(true)]), "dataBackends" := Obj(map["mine" := backend])];
    assert ScalarStored(c) && FieldsAt(c, "dataBackends") == map["mine" := backend] && LayoutOf(c) == Full;
    ScalarStoredLosesBackend(c, "mine");
  }

  // ---- What the readers go by ----

  /** What one service, or storage, is configured to, with the defaults behind it. */
  lemma ServiceReads(c: Fields, defaults: map<string, Fields>, name: string, key: string)
    ensures Get(Service(c, defaults, name), key)
         == if key in FieldsAt(FieldsAt(c, "services"), name) then Some(FieldsAt(FieldsAt(c, "services"), name)[key])
            else if name in defaults then Get(defaults[name], key) else None
  {
  }

  /** A new configuration of storage wins field by field over the defaults. */
  lemma NewStorageReads(c: Fields, key: string)
    requires var stored := Get(FieldsAt(c, "services"), "stored"); stored.Some? && stored.value.Obj? && key != "backends"
    ensures var stored := FieldsAt(FieldsAt(c, "services"), "stored");
            Get(StoredConfig(c).settings, key) == if key in stored then Some(stored[key]) else Get(StoredDefault(LayoutOf(c)), key)
  {
  }

  /** One backend has what is configured for it, and the default fields it has otherwise; one neither knows there is none of. */
  lemma BackendReads(defaults: map<string, Fields>, overrides: Fields, name: string, key: string)
    ensures name in MergedConfigMap(defaults, overrides) <==> name in defaults || name in overrides
    ensures name in MergedConfigMap(defaults, overrides) ==>
              Get(MergedConfigMap(defaults, overrides)[name], key)
              == if key in FieldsAt(overrides, name) then Some(FieldsAt(overrides, name)[key])
                 else if name in defaults then Get(defaults[name], key) else None
  {
  }

  lemma NewBackendsRead(c: Fields)
    requires var stored := Get(FieldsAt(c, "services"), "stored"); stored.Some? && stored.value.Obj?
    ensures StoredConfig(c).backends
         == MergedConfigMap(StorageBackends(LayoutOf(c)), FieldsAt(FieldsAt(FieldsAt(c, "services"), "stored"), "backends"))
  {
  }

  /** The old form has its backends in `dataBackends`, among them the cache, and its root among the directories. */
  lemma OldStorageReads(c: Fields, key: string)
    requires !Truthy(Get(FieldsAt(c, "services"), "stored")) && key !in {"root", "cache", "backends"}
    ensures var dirs, legacy := FieldsAt(c, "directories"), FieldsAt(c, "dataBackends");
            var read := StoredConfig(c);
            && Get(read.settings, "root")
               == OrElse(Get(dirs, "stored"), Some(Str(ROOT_MARK + "/" + Directory(LayoutOf(c), StoredDir))))
            && Get(read.settings, "cache")
               == OrElse(Get(FieldsAt(legacy, "stored.cache"), "root"),
                         OrElse(Get(dirs, "cache"), Some(Str(ROOT_MARK + "/" + Directory(LayoutOf(c), CacheDir)))))
            && Get(read.settings, key) == Get(StoredDefault(LayoutOf(c)), key)
            && read.backends == MergedConfigMap(StorageBackends(LayoutOf(c)), legacy - {"stored.cache"})
  {
    LegacyRead(c);
  }

  /** A directory is where the internals say, or else the directories, or else the layout. */
  lemma DirReads(c: Fields, dir: Dir)
    ensures var internals, dirs := FieldsAt(c, "internals"), FieldsAt(c, "directories");
            var at, key := InternalsKey(dir), DirKey(dir);
            DirValue(c, dir)
            == if at in internals && internals[at] != Null then Some(internals[at])
               else if key in dirs && dirs[key] != Null then Some(dirs[key])
               else Some(Str(Directory(LayoutOf(c), dir)))
  {
  }

  /** An absolute path is taken as it is, any other below the root, and nothing but text is a path. */
  lemma PathReads(s: string, v: Json, root: string, normal: string -> string)
    requires '{' !in s && s != ""
    ensures ResolvedPath(Some(Str(s)), root, normal) == Path(normal(if s[0] == '/' then s else root + "/" + s))
    ensures ResolvedPath(None, root, normal) == NoPath && ResolvedPath(Some(Str("")), root, normal) == NoPath
    ensures !v.Str? && Truthy(Some(v)) ==> ResolvedPath(Some(v), root, normal) == Throws
  {
    PlainText(s, root);
  }

  // ---- What the migration writes ----

  /** The old form is taken over: nothing is configured for storage yet, and there is an old configuration to take. */
  predicate TakesOver(c: Fields) {
    !Truthy(Get(FieldsAt(c, "services"), "stored")) && IsObject(Get(c, "dataBackends"))
  }

  lemma StorageIsTakenOver(c: Fields)
    ensures var t, dirs, legacy := WithStored(c), FieldsAt(c, "directories"), FieldsAt(c, "dataBackends");
            var stored := FieldsAt(FieldsAt(t, "services"), "stored");
            && AgreeOutside(c, t, {"services"})
            && (!TakesOver(c) ==> t == c)
            && (TakesOver(c) ==>
                  && Truthy(Get(FieldsAt(t, "services"), "stored"))
                  && AgreeOutside(FieldsAt(c, "services"), FieldsAt(t, "services"), {"stored"})
                  && Get(stored, "backends") == Some(Obj(legacy - {"stored.cache"}))
                  && Get(stored, "root") == OrElse(Get(dirs, "stored"), Get(StoredDefault(LayoutOf(c)), "root"))
                  && Get(stored, "cache")
                     == OrElse(Get(FieldsAt(legacy, "stored.cache"), "root"),
                               OrElse(Get(dirs, "cache"), Get(StoredDefault(LayoutOf(c)), "cache")))
                  && AgreeOutside(StoredDefault(LayoutOf(c)), stored, {"root", "cache", "backends"}))
  {
  }

  lemma OldFormGoes(c: Fields)
    ensures var t := WithoutLegacy(c);
            && AgreeOutside(c, t, {"dataBackends"})
            && ("dataBackends" in t ==> t == c)
            && ("dataBackends" in t <==> "dataBackends" in c && !Truthy(Get(FieldsAt(c, "services"), "stored")))
  {
  }

  /** The value of an internal directory the migration writes: what the directories say, or the default. */
  predicate IsInternalOf(v: Value, dirs: Fields, layout: Layout, dir: Dir)
    requires IsInternal(dir)
  {
    v == if DirKey(dir) in dirs && dirs[DirKey(dir)] != Null then Some(dirs[DirKey(dir)])
         else Some(Str(ROOT_MARK + "/" + Directory(layout, dir)))
  }

  lemma InternalsAndLayoutAreSet(c: Fields)
    ensures var t := WithLayout(WithInternals(c));
            var internals := FieldsAt(t, "internals");
            && AgreeOutside(c, t, {"internals", "layout"})
            && Truthy(Get(t, "internals")) && Truthy(Get(t, "layout"))
            && (Truthy(Get(c, "internals")) ==> Get(t, "internals") == Get(c, "internals"))
            && (!Truthy(Get(c, "internals")) ==>
                  && internals.Keys == {"db", "config", "var", "tmp"}
                  && forall dir :: IsInternal(dir) ==>
                       IsInternalOf(Get(internals, InternalsKey(dir)), FieldsAt(c, "directories"), LayoutOf(c), dir))
            && (Truthy(Get(c, "layout")) ==> Get(t, "layout") == Get(c, "layout"))
            && (!Truthy(Get(c, "layout")) ==> Get(t, "layout") == Some(Str("full")))
  {
    var t := WithLayout(WithInternals(c));
    if !Truthy(Get(c, "internals")) {
      forall dir | IsInternal(dir)
        ensures IsInternalOf(Get(FieldsAt(t, "internals"), InternalsKey(dir)), FieldsAt(c, "directories"), LayoutOf(c), dir)
      {
        NewInternalsAt(FieldsAt(c, "directories"), LayoutOf(c), dir);
        assert InternalDefault(LayoutOf(c), dir) == ROOT_MARK + "/" + Directory(LayoutOf(c), dir);
      }
    }
  }

  /**
   A migrated configuration has internals and a layout; it has the old form of the storage configuration only if that
   is no object and nothing newer is there; storage is configured if it was or the old form was; nothing else changes.
   */
  lemma MigratedHasNewForm(c: Fields)
    ensures var t := Migrated(c);
            && AgreeOutside(c, t, {"services", "dataBackends", "internals", "layout"})
            && Truthy(Get(t, "internals")) && Truthy(Get(t, "layout"))
            && ("dataBackends" in t <==>
                  "dataBackends" in c && !Truthy(Get(FieldsAt(c, "services"), "stored")) && !IsObject(Get(c, "dataBackends")))
            && (Truthy(Get(FieldsAt(t, "services"), "stored"))
                <==> Truthy(Get(FieldsAt(c, "services"), "stored")) || IsObject(Get(c, "dataBackends")))
            && Get(t, "services") == Get(WithStored(c), "services")
  {
    var u := WithStored(c);
    StorageIsTakenOver(c);
    OldFormGoes(u);
    InternalsAndLayoutAreSet(WithoutLegacy(u));
    SettingKeepsServices(WithoutLegacy(u));
  }

  lemma SettingKeepsServices(c: Fields)
    ensures var t := WithLayout(WithInternals(c)); Get(t, "services") == Get(c, "services") && ("dataBackends" in t <==> "dataBackends" in c)
  {
  }
}
