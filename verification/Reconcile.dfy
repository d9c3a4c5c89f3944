/**
 Keeping the index equal to the workspace without listing it.

 A reconcile at a known commit re-indexes only the paths git reports (the diff from that commit, the working tree's
 changes) and the paths remembered as touched. This module says exactly when that leaves the index as a full listing
 would, for every history of edits, commits and passes.
 */
module Reconciling {
  import opened Common
  import opened Order

  /** What the indexer does with a path: sources are indexed, module and ignore files force a listing. */
  datatype Kind = Source | Module | Ignore | Plain

  /**
   The path rules: kind, directory, whether it is a Go file (whose unit depends on the modules), a directory's go.mod, and
   how a module path with a sub-directory, or a directory alone, is written.
   */
  datatype Rules = Rules(kind: string -> Kind, dir: string -> seq<string>, isGo: string -> bool, dotless: string -> bool,
                         goMod: seq<string> -> string, join: (string, seq<string>) -> string, bare: seq<string> -> string)

  /** A file's content; `declares` is the module path it declares if it is a go.mod ("" for none). */
  datatype Content = Content(text: int, declares: string)

  /** A workspace file with its size and modification time. */
  datatype File = File(content: Content, stat: int)

  type Tree = map<string, Content>

  /** Module paths by go.mod file, one per directory. */
  type Modules = map<string, string>

  /**
   The workspace and git at one moment. `shown` are the files a listing shows: tracked ones and untracked ones that are
   not ignored. `head`, `dirty` and `diffs` are git's answers; None when git cannot answer.
   */
  datatype Env = Env(work: map<string, File>, shown: set<string>, trees: map<int, Tree>,
                     head: Option<int>, dirty: Option<seq<string>>, diffs: bool, dirs: set<string>)

  /** A package path as text. */
  type Unit = string

  datatype Entry = Entry(content: Content, stat: int, unit: Unit)

  datatype Meta = Meta(complete: bool, commit: Option<int>, touched: seq<string>, overflow: bool, modules: Option<Modules>)

  /**
   The index between passes, with its metadata in memory and as the manifest last saved it: metadata that was only staged is
   lost when the process ends.
   */
  datatype Index = Index(published: bool, files: map<string, Entry>, meta: Meta, saved: Meta)

  const MAX_TOUCHED: nat := 4096
  const MAX_GIT_CHANGES: nat := 50000

  // ---------------------------------------------------------------------------------------------
  // The environment

  function Get<V>(m: map<string, V>, p: string): Option<V>
  {
    if p in m then Some(m[p]) else None
  }

  /** What a listing shows at p. */
  function Shown(env: Env, p: string): Option<Content>
  {
    if p in env.shown && p in env.work then Some(env.work[p].content) else None
  }

  /** git's promises: trees are known, and every path whose shown content differs from HEAD's is reported dirty. */
  ghost predicate Honest(env: Env)
  {
    && env.shown <= env.work.Keys
    && (env.head.Some? ==> env.head.value in env.trees)
    && (env.head.Some? && env.dirty.Some? ==>
          forall p :: Shown(env, p) != Get(env.trees[env.head.value], p) ==> p in env.dirty.value)
  }

  /** The paths whose content differs between two commits. */
  function Diff(a: Tree, b: Tree): set<string>
  {
    set p | p in a.Keys + b.Keys && Get(a, p) != Get(b, p)
  }

  // ---------------------------------------------------------------------------------------------
  // Units

  /** importPath: the package path under the nearest enclosing module, else the directory. */
  function ImportPath(rules: Rules, modules: Modules, dir: seq<string>, d: nat): Unit
    requires d <= |dir|
  {
    if rules.goMod(dir[..d]) in modules then rules.join(modules[rules.goMod(dir[..d])], dir[d..])
    else if d == 0 then rules.bare(dir)
    else ImportPath(rules, modules, dir, d - 1)
  }

  /** Of the first d directories the k-th declares a module and none below it does. */
  ghost predicate IsNearest(rules: Rules, modules: Modules, dir: seq<string>, d: nat, k: nat)
    requires d <= |dir|
  {
    && k <= d && rules.goMod(dir[..k]) in modules
    && forall m: nat :: k < m <= d ==> rules.goMod(dir[..m]) !in modules
  }

  /** The module that counts is the one declared in the nearest enclosing directory; without any, the directory is the unit. */
  lemma {:induction false} NearestModuleCounts(rules: Rules, modules: Modules, dir: seq<string>, d: nat)
    requires d <= |dir|
    ensures forall k: nat :: IsNearest(rules, modules, dir, d, k) ==>
      ImportPath(rules, modules, dir, d) == rules.join(modules[rules.goMod(dir[..k])], dir[k..])
    ensures (forall k: nat :: k <= d ==> rules.goMod(dir[..k]) !in modules) ==> ImportPath(rules, modules, dir, d) == rules.bare(dir)
  {
    if d > 0 && rules.goMod(dir[..d]) !in modules { NearestModuleCounts(rules, modules, dir, d - 1); }
  }

  function UnitOf(rules: Rules, modules: Modules, p: string): Unit
  {
    var dir := rules.dir(p);
    if rules.isGo(p) then ImportPath(rules, modules, dir, |dir|) else rules.bare(dir)
  }

  /** The modules a tree's go.mod files declare. */
  function ModulesOf(rules: Rules, contents: map<string, Content>): Modules
  {
    map p | p in contents && rules.kind(p) == Module && contents[p].declares != "" :: contents[p].declares
  }

  function ShownTree(env: Env): map<string, Content>
  {
    map p | p in env.work && p in env.shown :: env.work[p].content
  }

  // ---------------------------------------------------------------------------------------------
  // One pass over candidates

  function EntryFor(rules: Rules, env: Env, modules: Modules, p: string): Entry
    requires p in env.work
  {
    Entry(env.work[p].content, env.work[p].stat, UnitOf(rules, modules, p))
  }

  /** A candidate whose stat and unit match the index is not read again. */
  predicate Skipped(rules: Rules, files: map<string, Entry>, env: Env, modules: Modules, p: string)
  {
    p in files && p in env.work && files[p].stat == env.work[p].stat && files[p].unit == UnitOf(rules, modules, p)
  }

  /** What the index holds at p after a pass over the candidates and the known deletions. */
  function Indexed(rules: Rules, files: map<string, Entry>, env: Env, modules: Modules, cands: set<string>, gone: set<string>, p: string): Option<Entry>
  {
    if p in cands then
      if p !in env.work then None
      else if Skipped(rules, files, env, modules, p) then Some(files[p])
      else Some(EntryFor(rules, env, modules, p))
    else if p in gone then None
    else Get(files, p)
  }

  function Reindexed(rules: Rules, files: map<string, Entry>, env: Env, modules: Modules, cands: set<string>, gone: set<string>): map<string, Entry>
  {
    map p | p in files.Keys + cands && Indexed(rules, files, env, modules, cands, gone, p).Some? ::
      Indexed(rules, files, env, modules, cands, gone, p).value
  }

  lemma {:induction false} ReindexedAt(rules: Rules, files: map<string, Entry>, env: Env, modules: Modules, cands: set<string>, gone: set<string>, p: string)
    ensures Get(Reindexed(rules, files, env, modules, cands, gone), p) == Indexed(rules, files, env, modules, cands, gone, p)
  {
  }

  /** A full listing's index entry: the file's content under the workspace's own modules. */
  function Listed(rules: Rules, env: Env, p: string): Option<(Content, Unit)>
  {
    if rules.kind(p) == Source && Shown(env, p).Some? then Some((Shown(env, p).value, UnitOf(rules, ModulesOf(rules, ShownTree(env)), p))) else None
  }

  function View(e: Option<Entry>): Option<(Content, Unit)>
  {
    match e case None => None case Some(x) => Some((x.content, x.unit))
  }

  /** The index shows at p what a full listing would. */
  predicate Agrees(rules: Rules, files: map<string, Entry>, env: Env, p: string)
  {
    View(Get(files, p)) == Listed(rules, env, p)
  }

  // ---------------------------------------------------------------------------------------------
  // Touched paths

  predicate Increasing(s: seq<string>)
  {
    forall i, j :: 0 <= i < j < |s| ==> Less(s[i], s[j])
  }

  /** Sorted insertion without duplicates. */
  function InsertPath(s: seq<string>, p: string): (r: seq<string>)
    requires Increasing(s)
    ensures Increasing(r) && (forall x :: x in r <==> x in s || x == p)
    ensures |r| <= |s| + 1
  {
    if s == [] then [p]
    else
      var n := |s| - 1;
      if p == s[n] then s
      else if Less(s[n], p) then
        SnocIncreasing(s, p);
        s + [p]
      else
        Total(s[n], p);
        assert forall x :: x in s <==> x in s[..n] || x == s[n];
        var front := InsertPath(s[..n], p);
        assert front != [] ==> front[|front| - 1] in front;
        LastBelow(s, n);
        SnocIncreasing(front, s[n]);
        front + [s[n]]
  }

  lemma {:induction false} LastBelow(s: seq<string>, n: nat)
    requires Increasing(s) && n < |s|
    ensures forall x :: x in s[..n] ==> Less(x, s[n])
  {
  }

  lemma {:induction false} SnocIncreasing(s: seq<string>, p: string)
    requires Increasing(s) && (s != [] ==> Less(s[|s| - 1], p))
    ensures Increasing(s + [p])
  {
    forall i | 0 <= i < |s| ensures Less(s[i], p) {
      if i < |s| - 1 { Transitive(s[i], s[|s| - 1], p); }
    }
  }

  /** The sorted, distinct source paths of a list. */
  function Sources(rules: Rules, paths: seq<string>): (r: seq<string>)
    ensures Increasing(r) && forall x :: x in r <==> x in paths && rules.kind(x) == Source
  {
    if paths == [] then []
    else
      var n := |paths| - 1;
      var front := Sources(rules, paths[..n]);
      assert paths == paths[..n] + [paths[n]];
      if rules.kind(paths[n]) == Source then InsertPath(front, paths[n]) else front
  }

  /** indexable: the source paths to remember, at most 4096 of them; the rest are dropped without notice. */
  function Indexable(rules: Rules, paths: seq<string>): (r: seq<string>)
    ensures |r| <= 4096 && r <= Sources(rules, paths)
    ensures |Sources(rules, paths)| <= 4096 ==> r == Sources(rules, paths)
  {
    var out := Sources(rules, paths);
    if |out| > MAX_TOUCHED then out[..MAX_TOUCHED] else out
  }

  /** appendTouched: the new paths after the old ones, without repeating any. */
  function AppendTouched(touched: seq<string>, paths: seq<string>): (r: seq<string>)
    ensures touched <= r && forall x :: x in r <==> x in touched || x in paths
  {
    if paths == [] then touched
    else
      var n := |paths| - 1;
      var front := AppendTouched(touched, paths[..n]);
      assert paths == paths[..n] + [paths[n]];
      if paths[n] in front then front else front + [paths[n]]
  }

  /**
   What the metadata promises about the index: a source path whose indexed content differs from the recorded commit's
   tree is remembered, unless the next reconcile must list anyway; and units were computed with the recorded modules.
   */
  ghost predicate Remembers(rules: Rules, ix: Index, trees: map<int, Tree>)
  {
    && (ix.meta.commit.Some? ==> ix.meta.commit.value in trees)
    && (ix.meta.commit.Some? && !ix.meta.overflow ==> forall p :: rules.kind(p) == Source ==>
          Differs(ix.files, trees[ix.meta.commit.value], p) ==> p in ix.meta.touched)
    && (forall p :: p in ix.meta.touched ==> rules.kind(p) == Source)
    && (forall p :: p in ix.files ==> rules.kind(p) == Source)
    && (ix.meta.modules.Some? ==> forall p :: p in ix.files ==> ix.files[p].unit == UnitOf(rules, ix.meta.modules.value, p))
  }

  predicate Differs(files: map<string, Entry>, tree: Tree, p: string)
  {
    (if p in files then Some(files[p].content) else None) != Get(tree, p)
  }

  // ---------------------------------------------------------------------------------------------
  // The passes

  /** The paths a git reconcile examines: the diff from the recorded commit, the dirty paths, the touched ones. */
  function Changed(ix: Index, env: Env): set<string>
    requires ix.meta.commit.Some? && ix.meta.commit.value in env.trees
    requires env.head.Some? && env.head.value in env.trees && env.dirty.Some?
  {
    (if env.head != ix.meta.commit then Diff(env.trees[ix.meta.commit.value], env.trees[env.head.value]) else {})
    + (set p | p in env.dirty.value) + (set p | p in ix.meta.touched)
  }

  /** The metadata allows asking git at all. */
  predicate Askable(ix: Index)
  {
    ix.published && ix.meta.complete && ix.meta.commit.Some? && !ix.meta.overflow && ix.meta.modules.Some?
  }

  /** git can answer: every command succeeds, the changes are few, and no module or ignore file is among them. */
  predicate Answers(rules: Rules, ix: Index, env: Env)
    requires Askable(ix) && ix.meta.commit.value in env.trees && (env.head.Some? ==> env.head.value in env.trees)
  {
    && env.head.Some? && (env.head == ix.meta.commit || env.diffs) && env.dirty.Some?
    && |Changed(ix, env)| <= MAX_GIT_CHANGES
    && forall p :: p in Changed(ix, env) ==> rules.kind(p) != Module && rules.kind(p) != Ignore
  }

  /** gitReconcile's result: the changed source paths are re-indexed or deleted, and HEAD is recorded. */
  function GitPass(rules: Rules, ix: Index, env: Env): Index
    requires Askable(ix) && ix.meta.commit.value in env.trees && (env.head.Some? ==> env.head.value in env.trees)
    requires Answers(rules, ix, env)
  {
    var sources := set p | p in Changed(ix, env) && rules.kind(p) == Source;
    var files := Reindexed(rules, ix.files, env, ix.meta.modules.value, sources * env.work.Keys, sources - env.work.Keys);
    var meta := ix.meta.(commit := env.head, touched := Indexable(rules, env.dirty.value));
    Index(ix.published, files, meta, meta)
  }

  function ShownSources(rules: Rules, env: Env): set<string>
  {
    set p | p in env.work && p in env.shown && rules.kind(p) == Source
  }

  /** Whether a listing starts over: nothing complete is published, or units would change. */
  predicate Rebuilds(ix: Index, modules: Modules)
  {
    !ix.published || !ix.meta.complete || (match ix.meta.modules case None => modules != map[] case Some(m) => modules != m)
  }

  function DirtyOrNone(env: Env): seq<string>
  {
    if env.head.Some? && env.dirty.Some? then env.dirty.value else []
  }

  /** listReconcile's result: every shown source is a candidate and every other path is deleted. */
  function ListPass(rules: Rules, ix: Index, env: Env): Index
  {
    var modules := ModulesOf(rules, ShownTree(env));
    var sources := ShownSources(rules, env);
    var was := if Rebuilds(ix, modules) then map[] else ix.files;
    var meta := Meta(true, env.head, Indexable(rules, DirtyOrNone(env)), false, Some(modules));
    Index(true, Reindexed(rules, was, env, modules, sources, was.Keys - sources), meta, meta)
  }

  predicate TreesKnown(ix: Index, env: Env)
  {
    (ix.meta.commit.Some? ==> ix.meta.commit.value in env.trees) && (env.head.Some? ==> env.head.value in env.trees)
  }

  /** Reconcile: ask git when the metadata allows and git can answer, else list. */
  function ReconcilePass(rules: Rules, ix: Index, env: Env): Index
    requires TreesKnown(ix, env)
  {
    if Askable(ix) && Answers(rules, ix, env) then GitPass(rules, ix, env) else ListPass(rules, ix, env)
  }

  /** What Update does with a path: index it, delete it, or leave it alone (unknown and ignored, or neither known nor there). */
  predicate Takes(rules: Rules, ix: Index, env: Env, p: string)
  {
    rules.kind(p) == Source && (p in ix.files || p in env.shown * env.work.Keys)
  }

  predicate Forces(rules: Rules, ix: Index, env: Env, p: string)
  {
    || rules.kind(p) == Module || rules.kind(p) == Ignore
    || (rules.kind(p) == Plain && rules.dotless(p) && (p in env.dirs || exists q :: q in ix.files && (p + "/") <= q))
  }

  /** The metadata Update stages with its overlay. */
  function Noted(meta: Meta, paths: seq<string>): Meta
  {
    if paths == [] then meta
    else
      var touched := AppendTouched(meta.touched, paths);
      if |touched| > MAX_TOUCHED then meta.(touched := [], overflow := true) else meta.(touched := touched)
  }

  /** Update's result for the paths it takes; its metadata is saved with its overlay, if there is anything to publish. */
  function UpdatePass(rules: Rules, ix: Index, env: Env, taken: seq<string>): Index
    requires ix.meta.modules.Some?
  {
    var paths := set p | p in taken;
    var files := Reindexed(rules, ix.files, env, ix.meta.modules.value, paths * env.work.Keys, paths - env.work.Keys);
    var meta := Noted(ix.meta, taken);
    Index(ix.published, files, meta, if files != ix.files then meta else ix.saved)
  }

  /** The metadata read back from the manifest: what was saved, where no modules at all is stored as nothing. */
  function Reopened(ix: Index): Index
  {
    var meta := if ix.saved.modules == Some(map[]) then ix.saved.(modules := None) else ix.saved;
    ix.(meta := meta, saved := meta)
  }
}
