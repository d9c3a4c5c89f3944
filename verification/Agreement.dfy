/**
 When the passes of the Reconciling module leave the index as a full listing would, and what every pass keeps.
 */
module Agreement {
  import opened Common
  import opened Order
  import opened Reconciling

  /** A path git knows or reports that exists but is no longer shown by a listing (it became ignored). */
  predicate Hidden(env: Env, p: string)
  {
    p in env.work && p !in env.shown
  }

  /** A changed file whose size and modification time still match the index. */
  predicate Racy(rules: Rules, files: map<string, Entry>, env: Env, modules: Modules, p: string)
  {
    Skipped(rules, files, env, modules, p) && files[p].content != env.work[p].content
  }

  /** The workspace's own unit for p. */
  function TrueUnit(rules: Rules, env: Env, p: string): Unit
  {
    UnitOf(rules, ModulesOf(rules, ShownTree(env)), p)
  }

  ghost predicate CanAskGit(rules: Rules, ix: Index, env: Env)
  {
    && Honest(env) && TreesKnown(ix, env) && Remembers(rules, ix, env.trees)
    && Askable(ix) && Answers(rules, ix, env)
  }

  /** A path git does not report is indexed with exactly the content a listing shows. */
  lemma {:induction false} UnchangedIsCurrent(rules: Rules, ix: Index, env: Env, p: string)
    requires CanAskGit(rules, ix, env) && rules.kind(p) == Source && p !in Changed(ix, env)
    ensures (if p in ix.files then Some(ix.files[p].content) else None) == Shown(env, p)
  {
    var was, now := env.trees[ix.meta.commit.value], env.trees[env.head.value];
    assert p !in ix.meta.touched && p !in env.dirty.value;
    assert Get(was, p) == Get(now, p) by {
      if env.head != ix.meta.commit { assert p !in Diff(was, now); }
    }
  }

  /**
   After a git reconcile a source path is as a full listing would leave it, except exactly for a changed path that is
   hidden, a changed path whose new content kept its size and time, and a shown path whose unit the recorded modules
   get wrong.
   */
  lemma {:induction false} GitPassIsExact(rules: Rules, ix: Index, env: Env, p: string)
    requires CanAskGit(rules, ix, env) && rules.kind(p) == Source
    ensures Agrees(rules, GitPass(rules, ix, env).files, env, p) <==>
      && !(p in Changed(ix, env) && Hidden(env, p))
      && !(p in Changed(ix, env) && Racy(rules, ix.files, env, ix.meta.modules.value, p))
      && (Shown(env, p).Some? ==> UnitOf(rules, ix.meta.modules.value, p) == TrueUnit(rules, env, p))
  {
    hide UnitOf, ModulesOf, ShownTree, Diff, GitPass, Agrees, Skipped;
    if p in Changed(ix, env) {
      ReportedIsExact(rules, ix, env, p);
    } else {
      UnreportedIsExact(rules, ix, env, p);
      UnchangedIsCurrent(rules, ix, env, p);
    }
  }

  /** A path git reports ends as a listing would leave it, unless it is hidden, racy or has an outdated unit. */
  lemma {:induction false} ReportedIsExact(rules: Rules, ix: Index, env: Env, p: string)
    requires TreesKnown(ix, env) && Askable(ix) && Answers(rules, ix, env) && rules.kind(p) == Source && p in Changed(ix, env)
    ensures Agrees(rules, GitPass(rules, ix, env).files, env, p) <==>
      && !Hidden(env, p) && !Racy(rules, ix.files, env, ix.meta.modules.value, p)
      && (Shown(env, p).Some? ==> UnitOf(rules, ix.meta.modules.value, p) == TrueUnit(rules, env, p))
  {
    hide UnitOf, ModulesOf, ShownTree, Diff, Changed;
    var sources := set q | q in Changed(ix, env) && rules.kind(q) == Source;
    ReindexedAt(rules, ix.files, env, ix.meta.modules.value, sources * env.work.Keys, sources - env.work.Keys, p);
  }

  /** A listing is exact except where an incremental one skips a file that kept its size and time. */
  lemma {:induction false} ListPassIsExact(rules: Rules, ix: Index, env: Env, p: string)
    ensures Agrees(rules, ListPass(rules, ix, env).files, env, p) <==>
      !(p in ShownSources(rules, env) && !Rebuilds(ix, ModulesOf(rules, ShownTree(env)))
        && Racy(rules, ix.files, env, ModulesOf(rules, ShownTree(env)), p))
  {
    var modules := ModulesOf(rules, ShownTree(env));
    var sources := ShownSources(rules, env);
    var was := if Rebuilds(ix, modules) then map[] else ix.files;
    ReindexedAt(rules, was, env, modules, sources, was.Keys - sources, p);
  }

  /** A path git does not report ends as a listing would leave it exactly when the index held the recorded commit's content and the true unit. */
  lemma {:induction false} UnreportedIsExact(rules: Rules, ix: Index, env: Env, p: string)
    requires Honest(env) && TreesKnown(ix, env) && Askable(ix) && Answers(rules, ix, env)
    requires rules.kind(p) == Source && p !in Changed(ix, env)
    ensures Agrees(rules, GitPass(rules, ix, env).files, env, p) <==>
      && !Differs(ix.files, env.trees[ix.meta.commit.value], p)
      && (p in ix.files ==> ix.files[p].unit == TrueUnit(rules, env, p))
  {
    var was, now := env.trees[ix.meta.commit.value], env.trees[env.head.value];
    var sources := set q | q in Changed(ix, env) && rules.kind(q) == Source;
    ReindexedAt(rules, ix.files, env, ix.meta.modules.value, sources * env.work.Keys, sources - env.work.Keys, p);
    assert p !in env.dirty.value;
    assert Get(was, p) == Get(now, p) by {
      if env.head != ix.meta.commit { assert p !in Diff(was, now); }
    }
  }

  /** The recorded modules are the ones the recorded commit declares. */
  ghost predicate ModulesCurrent(rules: Rules, ix: Index, trees: map<int, Tree>)
  {
    ix.meta.commit.Some? && ix.meta.modules.Some? ==>
      ix.meta.commit.value in trees && ix.meta.modules.value == ModulesOf(rules, trees[ix.meta.commit.value])
  }

  /** When git reports no module file, the recorded modules are the workspace's. */
  lemma {:induction false} ModulesStayCurrent(rules: Rules, ix: Index, env: Env)
    requires CanAskGit(rules, ix, env) && ModulesCurrent(rules, ix, env.trees)
    ensures ix.meta.modules.value == ModulesOf(rules, ShownTree(env))
    ensures ix.meta.modules.value == ModulesOf(rules, env.trees[env.head.value])
  {
    var was, now := env.trees[ix.meta.commit.value], env.trees[env.head.value];
    forall p | rules.kind(p) == Module
      ensures Get(was, p) == Get(now, p) && Shown(env, p) == Get(now, p)
    {
      assert p !in Changed(ix, env);
      if env.head != ix.meta.commit { assert p !in Diff(was, now); }
    }
    SameModules(rules, was, now);
    forall p | rules.kind(p) == Module ensures Get(ShownTree(env), p) == Get(now, p) {
      assert Shown(env, p) == Get(now, p);
    }
    SameModules(rules, now, ShownTree(env));
  }

  lemma {:induction false} SameModules(rules: Rules, a: map<string, Content>, b: map<string, Content>)
    requires forall p :: rules.kind(p) == Module ==> Get(a, p) == Get(b, p)
    ensures ModulesOf(rules, a) == ModulesOf(rules, b)
  {
    forall p ensures Get(ModulesOf(rules, a), p) == Get(ModulesOf(rules, b), p) {
      if rules.kind(p) == Module { assert Get(a, p) == Get(b, p); }
    }
    var x, y := ModulesOf(rules, a), ModulesOf(rules, b);
    forall p ensures p in x <==> p in y { assert Get(x, p) == Get(y, p); }
    forall p | p in x ensures x[p] == y[p] { assert Get(x, p) == Get(y, p); }
  }

  /** No changed path is hidden, and sizes and times tell contents apart. */
  ghost predicate Fair(ix: Index, env: Env)
    requires TreesKnown(ix, env)
  {
    && (ix.meta.commit.Some? && env.head.Some? && env.dirty.Some? ==> forall p :: p in Changed(ix, env) ==> !Hidden(env, p))
    && forall p :: p in ix.files && p in env.work && ix.files[p].stat == env.work[p].stat ==> ix.files[p].content == env.work[p].content
  }

  /**
   Re-indexing only what git reports leaves every path as listing the whole workspace would, and records the very same
   metadata.
   */
  lemma {:induction false} GitPassEqualsListing(rules: Rules, ix: Index, env: Env)
    requires CanAskGit(rules, ix, env) && ModulesCurrent(rules, ix, env.trees) && Fair(ix, env)
    ensures GitPass(rules, ix, env).meta == ListPass(rules, ix, env).meta
    ensures forall p :: View(Get(GitPass(rules, ix, env).files, p)) == View(Get(ListPass(rules, ix, env).files, p)) == Listed(rules, env, p)
  {
    ModulesStayCurrent(rules, ix, env);
    forall p ensures View(Get(GitPass(rules, ix, env).files, p)) == View(Get(ListPass(rules, ix, env).files, p)) == Listed(rules, env, p) {
      ListPassIsExact(rules, ix, env, p);
      if rules.kind(p) == Source {
        GitPassIsExact(rules, ix, env, p);
      } else {
        OnlySources(rules, ix, env, p);
      }
    }
  }

  lemma {:induction false} OnlySources(rules: Rules, ix: Index, env: Env, p: string)
    requires CanAskGit(rules, ix, env) && rules.kind(p) != Source
    ensures p !in GitPass(rules, ix, env).files
  {
    var sources := set q | q in Changed(ix, env) && rules.kind(q) == Source;
    ReindexedAt(rules, ix.files, env, ix.meta.modules.value, sources * env.work.Keys, sources - env.work.Keys, p);
  }

  // ---------------------------------------------------------------------------------------------
  // What the passes keep

  /** Update keeps the promise: whatever it changes is remembered, or the next reconcile lists. */
  lemma {:induction false} UpdateRemembers(rules: Rules, ix: Index, env: Env, taken: seq<string>)
    requires Remembers(rules, ix, env.trees) && ix.meta.modules.Some?
    requires forall p :: p in taken ==> rules.kind(p) == Source
    ensures Remembers(rules, UpdatePass(rules, ix, env, taken), env.trees)
    ensures ModulesCurrent(rules, ix, env.trees) ==> ModulesCurrent(rules, UpdatePass(rules, ix, env, taken), env.trees)
  {
    var after := UpdatePass(rules, ix, env, taken);
    var paths := set p | p in taken;
    forall p ensures Get(after.files, p) == Indexed(rules, ix.files, env, ix.meta.modules.value, paths * env.work.Keys, paths - env.work.Keys, p) {
      ReindexedAt(rules, ix.files, env, ix.meta.modules.value, paths * env.work.Keys, paths - env.work.Keys, p);
    }
    forall p | p in after.files
      ensures rules.kind(p) == Source && after.files[p].unit == UnitOf(rules, ix.meta.modules.value, p)
    {
      assert Get(after.files, p) == Some(after.files[p]);
    }
    if ix.meta.commit.Some? && !after.meta.overflow {
      var tree := env.trees[ix.meta.commit.value];
      forall p | rules.kind(p) == Source && Differs(after.files, tree, p) ensures p in after.meta.touched {
        if p !in paths { assert Get(after.files, p) == Get(ix.files, p); }
      }
    }
  }

  /** Update brings in each path it takes as a listing would, unless that path is hidden, racy or has an outdated unit; others stay. */
  lemma {:induction false} UpdateIsExact(rules: Rules, ix: Index, env: Env, taken: seq<string>, p: string)
    requires ix.meta.modules.Some? && rules.kind(p) == Source
    ensures p in taken ==>
      (Agrees(rules, UpdatePass(rules, ix, env, taken).files, env, p) <==>
        && !Hidden(env, p) && !Racy(rules, ix.files, env, ix.meta.modules.value, p)
        && (Shown(env, p).Some? ==> UnitOf(rules, ix.meta.modules.value, p) == TrueUnit(rules, env, p)))
    ensures p !in taken ==> Get(UpdatePass(rules, ix, env, taken).files, p) == Get(ix.files, p)
  {
    var paths := set q | q in taken;
    ReindexedAt(rules, ix.files, env, ix.meta.modules.value, paths * env.work.Keys, paths - env.work.Keys, p);
  }

  /** Every file is indexed as a full listing would. */
  ghost predicate UpToDate(rules: Rules, files: map<string, Entry>, env: Env)
  {
    forall p :: Agrees(rules, files, env, p)
  }

  /** Every source path whose shown content differs from HEAD is among the remembered dirty ones. */
  ghost predicate DirtyKept(rules: Rules, env: Env)
    requires env.head.Some? ==> env.head.value in env.trees
  {
    env.head.Some? ==> forall p :: rules.kind(p) == Source && Shown(env, p) != Get(env.trees[env.head.value], p) ==>
      p in Indexable(rules, DirtyOrNone(env))
  }

  /** An up-to-date index whose metadata records the environment keeps the promise exactly when the dirty paths were kept. */
  lemma {:induction false} RemembersIffDirtyKept(rules: Rules, ix: Index, env: Env)
    requires Honest(env) && UpToDate(rules, ix.files, env)
    requires ix.meta == Meta(true, env.head, Indexable(rules, DirtyOrNone(env)), false, Some(ModulesOf(rules, ShownTree(env))))
    ensures Remembers(rules, ix, env.trees) <==> DirtyKept(rules, env)
  {
    forall p | rules.kind(p) == Source
      ensures (if p in ix.files then Some(ix.files[p].content) else None) == Shown(env, p)
    {
      assert Agrees(rules, ix.files, env, p);
    }
    forall p | p in ix.files ensures rules.kind(p) == Source && ix.files[p].unit == TrueUnit(rules, env, p) {
      assert Agrees(rules, ix.files, env, p);
    }
  }

  /** The dirty paths are kept whenever git answered and at most 4096 of them are sources. */
  lemma {:induction false} FewDirtyAreKept(rules: Rules, env: Env)
    requires Honest(env) && (env.head.Some? ==> env.dirty.Some? && |Sources(rules, env.dirty.value)| <= 4096)
    ensures DirtyKept(rules, env)
  {
  }

  lemma {:induction false} NotAmongEarlier(s: seq<string>, n: nat)
    requires Increasing(s) && n < |s|
    ensures s[n] !in s[..n]
  {
    forall i | 0 <= i < n ensures s[i] != s[n] {
      Irreflexive(s[n]);
    }
  }

  /** When every source path git calls dirty does differ, they are all kept exactly if there are at most 4096. */
  lemma {:induction false} KeptIffFew(rules: Rules, env: Env)
    requires Honest(env) && env.head.Some? && env.dirty.Some?
    requires forall p :: p in env.dirty.value && rules.kind(p) == Source ==> Shown(env, p) != Get(env.trees[env.head.value], p)
    ensures DirtyKept(rules, env) <==> |Sources(rules, env.dirty.value)| <= 4096
  {
    var all, kept := Sources(rules, env.dirty.value), Indexable(rules, env.dirty.value);
    if |all| > MAX_TOUCHED {
      var p := all[MAX_TOUCHED];
      NotAmongEarlier(all, MAX_TOUCHED);
      assert p in all;
    }
  }

  /** What a reconcile needs to be exact: git honest, the promise kept so far, and no path hidden or racy. */
  ghost predicate Ready(rules: Rules, ix: Index, env: Env)
  {
    Honest(env) && TreesKnown(ix, env) && Fair(ix, env) && Remembers(rules, ix, env.trees) && ModulesCurrent(rules, ix, env.trees)
  }

  /** Then it leaves every path as a listing would, whichever way it goes. */
  lemma {:induction false} ReconcileIsExact(rules: Rules, ix: Index, env: Env)
    requires Ready(rules, ix, env)
    ensures UpToDate(rules, ReconcilePass(rules, ix, env).files, env)
  {
    if Askable(ix) && Answers(rules, ix, env) {
      GitPassEqualsListing(rules, ix, env);
    } else {
      forall p ensures Agrees(rules, ListPass(rules, ix, env).files, env, p) { ListPassIsExact(rules, ix, env, p); }
    }
  }

  /** What a listing would leave: only shown files, so nothing under a directory that is gone. */
  lemma {:induction false} UpToDateShows(rules: Rules, files: map<string, Entry>, env: Env, p: string)
    requires UpToDate(rules, files, env)
    ensures p in files <==> rules.kind(p) == Source && p in env.shown && p in env.work
    ensures p in files ==> files[p].content == env.work[p].content
  {
    assert Agrees(rules, files, env, p);
  }

  lemma {:induction false} ReconcileShows(rules: Rules, ix: Index, env: Env, p: string)
    requires Ready(rules, ix, env) && p in ix.files
    ensures p in ReconcilePass(rules, ix, env).files <==> p in env.shown && p in env.work
  {
    hide UpToDate, ReconcilePass;
    ReconcileIsExact(rules, ix, env);
    UpToDateShows(rules, ReconcilePass(rules, ix, env).files, env, p);
  }

  // ---------------------------------------------------------------------------------------------
  // Whole runs

  /** What can happen to an open index: passes, each in its own environment, and closing and reopening. */
  datatype Event = Reconciled(env: Env) | Updated(env: Env, taken: seq<string>) | Restarted

  function After(rules: Rules, ix: Index, e: Event): Index
    requires e.Reconciled? ==> TreesKnown(ix, e.env)
    requires e.Updated? ==> ix.meta.modules.Some?
  {
    match e
    case Reconciled(env) => ReconcilePass(rules, ix, env)
    case Updated(env, taken) => UpdatePass(rules, ix, env, taken)
    case Restarted => Reopened(ix)
  }

  /**
   What the environment owes an event. Commits are immutable, so one map of trees serves the whole run. A reconcile needs
   git to list its dirty paths, at most 4096 of them sources; a listing that records a commit also needs the
   workspace's modules to be that commit's.
   */
  ghost predicate Owed(rules: Rules, trees: map<int, Tree>, ix: Index, e: Event)
  {
    match e
    case Reconciled(env) =>
      && env.trees == trees && Honest(env) && TreesKnown(ix, env) && Fair(ix, env)
      && (env.head.Some? ==> env.dirty.Some? && |Sources(rules, env.dirty.value)| <= 4096)
      && (env.head.Some? && !(Askable(ix) && Answers(rules, ix, env)) ==>
            ModulesOf(rules, ShownTree(env)) == ModulesOf(rules, trees[env.head.value]))
    case Updated(env, taken) =>
      env.trees == trees && ix.meta.modules.Some? && forall p :: p in taken ==> rules.kind(p) == Source
    case Restarted => true
  }

  /** Both the metadata in memory and what a restart would find keep the promise. */
  ghost predicate Kept(rules: Rules, ix: Index, trees: map<int, Tree>)
  {
    && Remembers(rules, ix, trees) && ModulesCurrent(rules, ix, trees)
    && Remembers(rules, ix.(meta := ix.saved), trees) && ModulesCurrent(rules, ix.(meta := ix.saved), trees)
  }

  lemma {:induction false} EventKeeps(rules: Rules, trees: map<int, Tree>, ix: Index, e: Event)
    requires Kept(rules, ix, trees) && Owed(rules, trees, ix, e)
    ensures Kept(rules, After(rules, ix, e), trees)
    ensures e.Reconciled? ==> UpToDate(rules, After(rules, ix, e).files, e.env)
  {
    match e
    case Restarted =>
    case Updated(env, taken) => UpdateRemembers(rules, ix, env, taken);
    case Reconciled(env) =>
      var after := After(rules, ix, e);
      if Askable(ix) && Answers(rules, ix, env) {
        GitPassEqualsListing(rules, ix, env);
        ModulesStayCurrent(rules, ix, env);
      } else {
        forall p ensures Agrees(rules, after.files, env, p) { ListPassIsExact(rules, ix, env, p); }
      }
      FewDirtyAreKept(rules, env);
      RemembersIffDirtyKept(rules, after, env);
  }

  /** Runs: the events happen one after another, each owed what Owed says. */
  ghost predicate Run(rules: Rules, trees: map<int, Tree>, ix: Index, events: seq<Event>)
    decreases |events|
  {
    events == [] ||
    (Owed(rules, trees, ix, events[0]) && Run(rules, trees, After(rules, ix, events[0]), events[1..]))
  }

  function Final(rules: Rules, trees: map<int, Tree>, ix: Index, events: seq<Event>): Index
    requires Run(rules, trees, ix, events)
    decreases |events|
  {
    if events == [] then ix else Final(rules, trees, After(rules, ix, events[0]), events[1..])
  }

  /** A new index: nothing published, nothing recorded. */
  const NEW: Index := Index(false, map[], Meta(false, None, [], false, None), Meta(false, None, [], false, None))

  /** Every run keeps the promise, and every run that ends in a reconcile ends with the index equal to the workspace. */
  lemma {:induction false} RunStaysEqual(rules: Rules, trees: map<int, Tree>, ix: Index, events: seq<Event>)
    requires Kept(rules, ix, trees) && Run(rules, trees, ix, events)
    ensures Kept(rules, Final(rules, trees, ix, events), trees)
    ensures events != [] && events[|events| - 1].Reconciled? ==>
      UpToDate(rules, Final(rules, trees, ix, events).files, events[|events| - 1].env)
    decreases |events|
  {
    if events != [] {
      EventKeeps(rules, trees, ix, events[0]);
      RunStaysEqual(rules, trees, After(rules, ix, events[0]), events[1..]);
    }
  }

  /** In particular from a new index. */
  lemma {:induction false} FromNewStaysEqual(rules: Rules, trees: map<int, Tree>, events: seq<Event>, env: Env)
    requires Run(rules, trees, NEW, events + [Reconciled(env)])
    ensures UpToDate(rules, Final(rules, trees, NEW, events + [Reconciled(env)]).files, env)
  {
    var all := events + [Reconciled(env)];
    assert all[|all| - 1] == Reconciled(env);
    RunStaysEqual(rules, trees, NEW, all);
  }

  // ---------------------------------------------------------------------------------------------
  // A reconcile interrupted between its two writes

  /** The overlay, if any, is published with the metadata in memory, which still describes the previous pass. */
  function Interrupted(rules: Rules, ix: Index, env: Env): Index
    requires TreesKnown(ix, env) && Askable(ix) && Answers(rules, ix, env)
  {
    var files := GitPass(rules, ix, env).files;
    Index(ix.published, files, ix.meta, if files != ix.files then ix.meta else ix.saved)
  }

  /** The promise survives the interruption exactly when every source path that differs from the recorded commit was touched. */
  lemma {:induction false} InterruptedRemembersIff(rules: Rules, ix: Index, env: Env)
    requires CanAskGit(rules, ix, env) && ModulesCurrent(rules, ix, env.trees) && Fair(ix, env)
    ensures Remembers(rules, Interrupted(rules, ix, env), env.trees) <==>
      forall p :: rules.kind(p) == Source && Shown(env, p) != Get(env.trees[ix.meta.commit.value], p) ==> p in ix.meta.touched
  {
    hide UnitOf, ModulesOf, ShownTree, Diff, Changed, GitPass, Fair, ModulesCurrent;
    GitPassEqualsListing(rules, ix, env);
    ModulesStayCurrent(rules, ix, env);
    var files := GitPass(rules, ix, env).files;
    forall p ensures View(Get(files, p)) == Listed(rules, env, p) {}
    forall p | rules.kind(p) == Source ensures (if p in files then Some(files[p].content) else None) == Shown(env, p) {
      assert View(Get(files, p)) == Listed(rules, env, p);
    }
    forall p | p in files ensures rules.kind(p) == Source && files[p].unit == UnitOf(rules, ix.meta.modules.value, p) {
      assert View(Get(files, p)) == Listed(rules, env, p);
    }
  }

  /** Repeating the interrupted reconcile in the same environment still ends equal to the workspace. */
  lemma {:induction false} RetryIsUpToDate(rules: Rules, ix: Index, env: Env)
    requires CanAskGit(rules, ix, env) && ModulesCurrent(rules, ix, env.trees) && Fair(ix, env)
    ensures UpToDate(rules, ReconcilePass(rules, Interrupted(rules, ix, env), env).files, env)
  {
    var mid := Interrupted(rules, ix, env);
    assert Askable(mid) && Changed(mid, env) == Changed(ix, env) && Answers(rules, mid, env);
    GitPassEqualsListing(rules, ix, env);
    ModulesStayCurrent(rules, ix, env);
    forall p ensures Agrees(rules, GitPass(rules, mid, env).files, env, p) {
      assert View(Get(mid.files, p)) == Listed(rules, env, p);
      RetriedPath(rules, ix, env, p);
    }
  }

  lemma {:induction false} InterruptedAsks(rules: Rules, ix: Index, env: Env)
    requires TreesKnown(ix, env) && Askable(ix) && Answers(rules, ix, env)
    ensures var mid := Interrupted(rules, ix, env);
      Askable(mid) && Answers(rules, mid, env) && Changed(mid, env) == Changed(ix, env)
  {
    hide GitPass, Changed, Answers;
    SameQuestion(rules, ix, Interrupted(rules, ix, env), env);
  }

  /** What git is asked, and whether it can answer, depends on the metadata alone. */
  lemma {:induction false} SameQuestion(rules: Rules, a: Index, b: Index, env: Env)
    requires TreesKnown(a, env) && Askable(a) && Answers(rules, a, env) && b.published == a.published && b.meta == a.meta
    ensures Askable(b) && TreesKnown(b, env) && Answers(rules, b, env) && Changed(b, env) == Changed(a, env)
  {
    hide Diff, Changed;
    SameChanges(a, b, env);
  }

  lemma {:induction false} SameChanges(a: Index, b: Index, env: Env)
    requires a.meta.commit.Some? && a.meta.commit.value in env.trees && b.meta == a.meta
    requires env.head.Some? && env.head.value in env.trees && env.dirty.Some?
    ensures Changed(b, env) == Changed(a, env)
  {
    hide Diff;
  }

  lemma {:induction false} RetriedPath(rules: Rules, ix: Index, env: Env, p: string)
    requires TreesKnown(ix, env) && Askable(ix) && Answers(rules, ix, env) && Fair(ix, env)
    requires ix.meta.modules.value == ModulesOf(rules, ShownTree(env))
    requires Agrees(rules, GitPass(rules, ix, env).files, env, p)
    ensures var mid := Interrupted(rules, ix, env);
      Askable(mid) && Answers(rules, mid, env) && Agrees(rules, GitPass(rules, mid, env).files, env, p)
  {
    hide UnitOf, ModulesOf, ShownTree, Diff, Changed;
    InterruptedAsks(rules, ix, env);
    var mid := Interrupted(rules, ix, env);
    var modules := ix.meta.modules.value;
    var sources := set q | q in Changed(ix, env) && rules.kind(q) == Source;
    ReindexedAt(rules, ix.files, env, modules, sources * env.work.Keys, sources - env.work.Keys, p);
    ReindexedAt(rules, mid.files, env, modules, sources * env.work.Keys, sources - env.work.Keys, p);
  }
}
