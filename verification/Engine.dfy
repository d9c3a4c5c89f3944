/**
 The engine's passes, in place: each changes the index and its metadata as the Reconciling module's functions say.
 Passes run one at a time, under the engine's lock.
 */
module Engines {
  import opened Common
  import opened Order
  import opened Reconciling
  import opened Agreement

  class Engine {
    const rules: Rules
    var index: Index
    /** The modules units are computed with; None until a reconcile succeeds. */
    var modules: Option<Modules>

    constructor (rules: Rules, stored: Index)
      ensures this.rules == rules && index == stored && modules == None
    {
      this.rules := rules;
      index := stored;
      modules := None;
    }

    /** The modules in memory are the recorded ones. */
    predicate Valid()
      reads this
    {
      modules.Some? ==> index.meta.modules == modules
    }

    /** index: stat the candidates, read those that changed, and publish them with the deletions as one overlay. */
    method IndexPaths(env: Env, candidates: seq<string>, gone: seq<string>)
      requires modules.Some?
      requires forall p :: p in gone ==> p !in candidates && p in index.files
      modifies this`index
      ensures var files := Reindexed(rules, old(index.files), env, modules.value, (set p | p in candidates), (set p | p in gone));
        index == old(index).(files := files, saved := if files != old(index.files) then old(index.meta) else old(index.saved))
    {
      var jobs: map<string, Entry> := map[];
      var deleted := gone;
      for i := 0 to |candidates|
        invariant forall p :: p in jobs <==>
          p in candidates[..i] && p in env.work && !Skipped(rules, index.files, env, modules.value, p)
        invariant forall p :: p in jobs ==> p in env.work && jobs[p] == EntryFor(rules, env, modules.value, p)
        invariant forall p :: p in deleted <==> p in gone || (p in candidates[..i] && p !in env.work && p in index.files)
      {
        var p := candidates[i];
        assert candidates[..i + 1] == candidates[..i] + [p];
        if p !in env.work {
          if p in index.files {
            deleted := deleted + [p];
          }
        } else if !Skipped(rules, index.files, env, modules.value, p) {
          jobs := jobs[p := EntryFor(rules, env, modules.value, p)];
        }
      }
      assert candidates[..|candidates|] == candidates;
      var files := Published(index.files, jobs, deleted);
      ghost var all, known := (set p | p in candidates), (set p | p in gone);
      SameFiles(files, Reindexed(rules, index.files, env, modules.value, all, known)) by {
        forall p ensures Get(files, p) == Get(Reindexed(rules, index.files, env, modules.value, all, known), p) {
          ReindexedAt(rules, index.files, env, modules.value, all, known, p);
        }
      }
      if jobs == map[] && deleted == [] {
        assert files == index.files;
      } else {
        if deleted != [] {
          assert deleted[0] in deleted;
        } else {
          var p :| p in jobs;
          assert files[p] == jobs[p] && (p in index.files ==> jobs[p] != index.files[p]);
        }
        index := index.(files := files, saved := index.meta);
      }
    }

    /** Replaces the metadata and saves it. */
    method SetMeta(meta: Meta)
      modifies this`index
      ensures index == old(index).(meta := meta, saved := meta)
    {
      index := index.(meta := meta, saved := meta);
    }

    /** gitReconcile: false, changing nothing, when git cannot answer. */
    method GitReconcile(env: Env) returns (ok: bool)
      requires Askable(index) && TreesKnown(index, env)
      modifies this
      ensures ok == Answers(rules, old(index), env)
      ensures ok ==> index == GitPass(rules, old(index), env) && modules == index.meta.modules
      ensures !ok ==> index == old(index) && modules == old(modules)
    {
      hide Reindexed, Indexable, Diff, UnitOf, ModulesOf;
      ghost var was := index;
      if env.head.None? || (env.head != index.meta.commit && !env.diffs) || env.dirty.None? { return false; }
      var changed := GatherChanged(env);
      if |changed| > MAX_GIT_CHANGES { return false; }
      var answers, candidates, gone := SortChanged(env, changed);
      if !answers { return false; }
      modules := index.meta.modules;
      IndexPaths(env, candidates, gone);
      ghost var sources := set p | p in Changed(was, env) && rules.kind(p) == Source;
      assert (set p | p in candidates) == sources * env.work.Keys;
      SamePass(rules, was.files, env, modules.value, sources * env.work.Keys, (set p | p in gone), sources - env.work.Keys);
      SetMeta(index.meta.(commit := env.head, touched := Indexable(rules, env.dirty.value)));
      return true;
    }

    /** The set of paths the diff, the working tree and the metadata name. */
    method GatherChanged(env: Env) returns (changed: set<string>)
      requires TreesKnown(index, env) && index.meta.commit.Some? && env.head.Some? && env.dirty.Some?
      ensures changed == Changed(index, env)
    {
      changed := {};
      if env.head != index.meta.commit {
        changed := Diff(env.trees[index.meta.commit.value], env.trees[env.head.value]);
      }
      ghost var reported := changed;
      for i := 0 to |env.dirty.value|
        invariant changed == reported + set p | p in env.dirty.value[..i]
      {
        changed := changed + {env.dirty.value[i]};
      }
      assert env.dirty.value[..|env.dirty.value|] == env.dirty.value;
      reported := changed;
      for i := 0 to |index.meta.touched|
        invariant changed == reported + set p | p in index.meta.touched[..i]
      {
        changed := changed + {index.meta.touched[i]};
      }
      assert index.meta.touched[..|index.meta.touched|] == index.meta.touched;
    }

    /** The changed sources to index and to delete, unless a module or ignore file changed. */
    method SortChanged(env: Env, changed: set<string>) returns (ok: bool, candidates: seq<string>, gone: seq<string>)
      ensures ok == forall p :: p in changed ==> rules.kind(p) != Module && rules.kind(p) != Ignore
      ensures ok ==> forall p :: p in candidates <==> p in changed && rules.kind(p) == Source && p in env.work
      ensures ok ==> forall p :: p in gone <==> p in changed && rules.kind(p) == Source && p !in env.work && p in index.files
    {
      candidates, gone := [], [];
      var todo := changed;
      while todo != {}
        invariant todo <= changed
        invariant forall p :: p in changed - todo ==> rules.kind(p) != Module && rules.kind(p) != Ignore
        invariant forall p :: p in candidates <==> p in changed - todo && rules.kind(p) == Source && p in env.work
        invariant forall p :: p in gone <==> p in changed - todo && rules.kind(p) == Source && p !in env.work && p in index.files
      {
        var p :| p in todo;
        todo := todo - {p};
        match rules.kind(p)
        case Module => return false, [], [];
        case Ignore => return false, [], [];
        case Plain =>
        case Source =>
          if p in env.work {
            candidates := candidates + [p];
          } else if p in index.files {
            gone := gone + [p];
          }
      }
      return true, candidates, gone;
    }

    /** build: stream every source into a new base. */
    method Build(env: Env, sources: seq<string>)
      requires modules.Some?
      modifies this`index
      ensures index == Index(true, Reindexed(rules, map[], env, modules.value, (set p | p in sources), {}), old(index).meta, old(index).meta)
    {
      var files: map<string, Entry> := map[];
      for i := 0 to |sources|
        invariant forall p :: p in files <==> p in sources[..i] && p in env.work
        invariant forall p :: p in files ==> p in env.work && files[p] == EntryFor(rules, env, modules.value, p)
      {
        if sources[i] in env.work {
          files := files[sources[i] := EntryFor(rules, env, modules.value, sources[i])];
        }
      }
      assert sources[..|sources|] == sources;
      index := Index(true, files, index.meta, index.meta);
      ghost var all := set p | p in sources;
      SameFiles(files, Reindexed(rules, map[], env, modules.value, all, {})) by {
        forall p ensures Get(files, p) == Get(Reindexed(rules, map[], env, modules.value, all, {}), p) {
          ReindexedAt(rules, map[], env, modules.value, all, {}, p);
        }
      }
    }

    /** listReconcile, given the listing's sources in order. */
    method ListReconcile(env: Env, sources: seq<string>)
      requires forall p :: p in sources <==> p in ShownSources(rules, env)
      modifies this
      ensures index == ListPass(rules, old(index), env) && modules == index.meta.modules
    {
      ghost var was := index;
      var found := ModulesOf(rules, ShownTree(env));
      modules := Some(found);
      ghost var all := ShownSources(rules, env);
      assert all == set p | p in sources;
      if Rebuilds(index, found) {
        Build(env, sources);
      } else {
        var live := index.files.Keys;
        var gone: seq<string> := [];
        while live != {}
          invariant live <= index.files.Keys
          invariant forall p :: p in gone <==> p in index.files.Keys - live && p !in all
        {
          var p :| p in live;
          live := live - {p};
          if p !in sources { gone := gone + [p]; }
        }
        IndexPaths(env, sources, gone);
        assert index.files == Reindexed(rules, was.files, env, found, all, was.files.Keys - all) by {
          assert (set p | p in gone) == was.files.Keys - all;
        }
        index := index.(published := true);
      }
      SetMeta(Meta(true, env.head, Indexable(rules, DirtyOrNone(env)), false, Some(found)));
    }

    method Reconcile(env: Env, sources: seq<string>)
      requires TreesKnown(index, env)
      requires forall p :: p in sources <==> p in ShownSources(rules, env)
      modifies this
      ensures index == ReconcilePass(rules, old(index), env) && modules == index.meta.modules && Valid()
      ensures FewChanges(rules, old(index), env) ==>
        && index.meta.modules == old(index.meta.modules)
        && forall p :: p !in Changed(old(index), env) ==> Get(index.files, p) == Get(old(index).files, p)
    {
      if FewChanges(rules, index, env) { FewAreAsked(rules, index, env); }
      if Askable(index) {
        var ok := GitReconcile(env);
        if ok { return; }
      }
      ListReconcile(env, sources);
    }

    /** Update: index the given changed paths, or reconcile when one of them could change more than itself. */
    method Update(env: Env, paths: seq<string>, sources: seq<string>) returns (ghost taken: seq<string>)
      requires Valid() && TreesKnown(index, env)
      requires forall p :: p in sources <==> p in ShownSources(rules, env)
      modifies this
      ensures Valid()
      ensures old(modules).None? || (exists p :: p in paths && Forces(rules, old(index), env, p)) ==> index == ReconcilePass(rules, old(index), env)
      ensures old(modules).Some? && (forall p :: p in paths ==> !Forces(rules, old(index), env, p)) ==>
        && index == UpdatePass(rules, old(index), env, taken) && modules == old(modules)
        && (forall p :: p in taken <==> p in paths && Takes(rules, old(index), env, p))
        && Distinct(taken)
        && (|old(index).meta.touched| + |taken| <= 4096 ==>
              index.meta.overflow == old(index).meta.overflow && forall p :: p in taken || p in old(index).meta.touched ==> p in index.meta.touched)
      ensures Ready(rules, old(index), env) ==>
        forall p, q :: p in paths && rules.kind(p) == Plain && rules.dotless(p) && q in old(index).files && p + "/" <= q ==>
          UpToDate(rules, index.files, env) && (q in index.files <==> q in env.shown && q in env.work)
      ensures Ready(rules, old(index), env) ==>
        forall p :: p in paths && rules.kind(p) == Plain && rules.dotless(p) && p in env.dirs ==> UpToDate(rules, index.files, env)
      ensures Ready(rules, old(index), env) ==>
        forall p :: p in paths && (rules.kind(p) == Module || rules.kind(p) == Ignore) ==> UpToDate(rules, index.files, env)
    {
      hide Noted, Ready, UpToDate, ReconcilePass;
      ghost var was := index;
      taken := [];
      var candidates, force := Classify(env, paths);
      if force || modules.None? {
        Reconcile(env, sources);
        if Ready(rules, was, env) {
          ReconcileIsExact(rules, was, env);
          forall q | q in was.files ensures q in index.files <==> q in env.shown && q in env.work {
            ReconcileShows(rules, was, env, q);
          }
        }
        return;
      }
      var present, gone := Sort(env, candidates);
      taken := present + gone;
      DistinctTogether(present, gone);
      Note(present + gone);
      IndexPaths(env, present, gone);
      ghost var all := set p | p in taken;
      assert (set p | p in present) == all * env.work.Keys;
      assert (set p | p in gone) == all - env.work.Keys;
    }

    /** Remembers the taken paths, or that there are too many. */
    method Note(paths: seq<string>)
      modifies this`index
      ensures index == old(index).(meta := Noted(old(index).meta, paths)) && index.meta.modules == old(index).meta.modules
      ensures |old(index).meta.touched| + |paths| <= 4096 ==>
        index.meta.overflow == old(index).meta.overflow && forall p :: p in paths || p in old(index).meta.touched ==> p in index.meta.touched
    {
      if |paths| > 0 {
        AppendIsShort(index.meta.touched, paths);
        var touched := AppendTouched(index.meta.touched, paths);
        index := index.(meta := if |touched| > MAX_TOUCHED then index.meta.(touched := [], overflow := true) else index.meta.(touched := touched));
      }
    }

    /** classify: the source paths, unless one path forces a reconcile. */
    method Classify(env: Env, paths: seq<string>) returns (candidates: seq<string>, force: bool)
      ensures force == exists p :: p in paths && Forces(rules, index, env, p)
      ensures (exists p :: p in paths && (rules.kind(p) == Module || rules.kind(p) == Ignore)) ==> force
      ensures (exists p, q :: p in paths && rules.kind(p) == Plain && rules.dotless(p) && q in index.files && p + "/" <= q) ==> force
      ensures (exists p :: p in paths && rules.kind(p) == Plain && rules.dotless(p) && p in env.dirs) ==> force
      ensures !force ==> forall p :: p in candidates <==> p in paths && rules.kind(p) == Source
    {
      candidates := [];
      for i := 0 to |paths|
        invariant forall p :: p in candidates <==> p in paths[..i] && rules.kind(p) == Source
        invariant forall p :: p in paths[..i] ==> !Forces(rules, index, env, p)
      {
        if Forces(rules, index, env, paths[i]) {
          assert paths[i] in paths;
          return [], true;
        }
        assert paths[..i + 1] == paths[..i] + [paths[i]];
        if rules.kind(paths[i]) == Source { candidates := candidates + [paths[i]]; }
      }
      assert paths[..|paths|] == paths;
      return candidates, false;
    }

    /** The distinct candidates to index and to delete; unknown ignored paths are dropped. */
    method Sort(env: Env, candidates: seq<string>) returns (present: seq<string>, gone: seq<string>)
      requires forall p :: p in candidates ==> rules.kind(p) == Source
      ensures forall p :: p in present <==> p in candidates && Takes(rules, index, env, p) && p in env.work
      ensures forall p :: p in gone <==> p in candidates && Takes(rules, index, env, p) && p !in env.work
      ensures Distinct(present) && Distinct(gone)
    {
      present, gone := [], [];
      var unknown: seq<string> := [];
      for i := 0 to |candidates|
        invariant forall p :: p in present <==> p in candidates[..i] && p in env.work && p in index.files
        invariant forall p :: p in gone <==> p in candidates[..i] && p !in env.work && p in index.files
        invariant forall p :: p in unknown <==> p in candidates[..i] && p in env.work && p !in index.files
        invariant Distinct(present) && Distinct(gone) && Distinct(unknown)
      {
        var p := candidates[i];
        assert candidates[..i + 1] == candidates[..i] + [p];
        if p !in candidates[..i] {
          if p !in env.work {
            if p in index.files { gone := gone + [p]; }
          } else if p in index.files {
            present := present + [p];
          } else {
            unknown := unknown + [p];
          }
        }
      }
      assert candidates[..|candidates|] == candidates;
      ghost var known := present;
      for i := 0 to |unknown|
        invariant forall p :: p in present <==> p in known || (p in unknown[..i] && p in env.shown)
        invariant Distinct(present)
      {
        assert unknown[..i + 1] == unknown[..i] + [unknown[i]];
        if unknown[i] in env.shown { present := present + [unknown[i]]; }
      }
      assert unknown[..|unknown|] == unknown;
    }
  }

  lemma {:induction false} DistinctTogether(s: seq<string>, t: seq<string>)
    requires Distinct(s) && Distinct(t) && forall p :: p in s ==> p !in t
    ensures Distinct(s + t)
  {
    forall i, j | 0 <= i < j < |s + t| ensures (s + t)[i] != (s + t)[j] {
      if i < |s| <= j { assert s[i] in s && t[j - |s|] in t; }
    }
  }

  /** What allows a reconcile by git alone: what is recorded, what git answers, and which paths those name. */
  ghost predicate FewChanges(rules: Rules, ix: Index, env: Env)
    requires TreesKnown(ix, env)
  {
    && ix.published && ix.meta.complete && !ix.meta.overflow && ix.meta.modules.Some? && ix.meta.commit.Some?
    && env.head.Some? && env.dirty.Some? && (env.head == ix.meta.commit || env.diffs)
    && |Changed(ix, env)| <= 50000
    && forall p :: p in Changed(ix, env) ==> rules.kind(p) == Source || rules.kind(p) == Plain
  }

  lemma {:induction false} FewAreAsked(rules: Rules, ix: Index, env: Env)
    requires TreesKnown(ix, env) && FewChanges(rules, ix, env)
    ensures Askable(ix) && Answers(rules, ix, env)
    ensures forall p :: p !in Changed(ix, env) ==> Get(GitPass(rules, ix, env).files, p) == Get(ix.files, p)
  {
    var sources := set p | p in Changed(ix, env) && rules.kind(p) == Source;
    forall p | p !in Changed(ix, env) ensures Get(GitPass(rules, ix, env).files, p) == Get(ix.files, p) {
      ReindexedAt(rules, ix.files, env, ix.meta.modules.value, sources * env.work.Keys, sources - env.work.Keys, p);
    }
  }

  lemma {:induction false} AppendIsShort(touched: seq<string>, paths: seq<string>)
    ensures |AppendTouched(touched, paths)| <= |touched| + |paths|
  {
    if paths != [] { AppendIsShort(touched, paths[..|paths| - 1]); }
  }

  /** What publishing an overlay leaves live. */
  function Published(files: map<string, Entry>, jobs: map<string, Entry>, deleted: seq<string>): map<string, Entry>
  {
    (files + jobs) - set p | p in deleted
  }

  lemma {:induction false} SameFiles(a: map<string, Entry>, b: map<string, Entry>)
    requires forall p :: Get(a, p) == Get(b, p)
    ensures a == b
  {
    forall p ensures p in a <==> p in b { assert Get(a, p) == Get(b, p); }
    forall p | p in a ensures a[p] == b[p] { assert Get(a, p) == Get(b, p); }
  }

  /** A pass is told only about deletions of paths it had; telling it about others changes nothing. */
  lemma {:induction false} SamePass(rules: Rules, files: map<string, Entry>, env: Env, modules: Modules,
                                    candidates: set<string>, gone: set<string>, more: set<string>)
    requires gone <= more && more !! candidates && forall p :: p in more - gone ==> p !in files
    ensures Reindexed(rules, files, env, modules, candidates, gone) == Reindexed(rules, files, env, modules, candidates, more)
  {
    var a, b := Reindexed(rules, files, env, modules, candidates, gone), Reindexed(rules, files, env, modules, candidates, more);
    forall p ensures Get(a, p) == Get(b, p) {
      ReindexedAt(rules, files, env, modules, candidates, gone, p);
      ReindexedAt(rules, files, env, modules, candidates, more, p);
    }
    SameFiles(a, b);
  }
}
