/**
 Where a reconcile that asks git can end different from the workspace: one concrete history for each condition the
 Agreement module needs. In each, git is honest and sizes and times tell contents apart.
 */
module Gaps {
  import opened Common
  import opened Order
  import opened Reconciling
  import opened Agreement

  /** Every path is a source but go.mod; a Go file's unit depends on the root go.mod. */
  function Simple(): Rules
  {
    Rules((p: string) => if p == "go.mod" then Module else Source, (p: string) => [], (p: string) => true,
          (p: string) => false, (d: seq<string>) => "go.mod",
          (path: string, sub: seq<string>) => path, (d: seq<string>) => ".")
  }

  function Text(n: int): Content { Content(n, "") }

  /** A reconcile's outcome is wrong at p. */
  predicate Wrong(ix: Index, env: Env, p: string)
    requires TreesKnown(ix, env)
  {
    !Agrees(Simple(), ReconcilePass(Simple(), ix, env).files, env, p)
  }

  /** Nothing is dirty, HEAD is the recorded commit, and the remembered paths are sources, at most 4096. */
  predicate Quiet(ix: Index, env: Env)
  {
    && Askable(ix) && env.head == ix.meta.commit && env.dirty == Some([])
    && |ix.meta.touched| <= 4096 && forall p :: p in ix.meta.touched ==> Simple().kind(p) == Source
  }

  lemma {:induction false} AtMostLength(s: seq<string>)
    ensures |set p | p in s| <= |s|
  {
    if s != [] {
      AtMostLength(s[1..]);
      assert (set p | p in s) == (set p | p in s[1..]) + {s[0]};
    }
  }

  /** A quiet reconcile ends right exactly where the index already held the recorded commit's content and the true unit. */
  lemma {:induction false} QuietIsExact(ix: Index, env: Env, p: string)
    requires Honest(env) && Quiet(ix, env) && Simple().kind(p) == Source && p !in ix.meta.touched
    ensures Wrong(ix, env, p) <==>
      Differs(ix.files, env.trees[env.head.value], p) || (p in ix.files && ix.files[p].unit != TrueUnit(Simple(), env, p))
  {
    assert Changed(ix, env) == set q | q in ix.meta.touched;
    AtMostLength(ix.meta.touched);
    UnreportedIsExact(Simple(), ix, env, p);
  }

  /** The first reconcile indexes exactly what is shown, and records HEAD with the dirty sources that fit. */
  lemma {:induction false} FirstIsListed(env: Env, p: string)
    requires TreesKnown(NEW, env)
    ensures var ix := ReconcilePass(Simple(), NEW, env);
      && ix.published && ix.meta == Meta(true, env.head, Indexable(Simple(), DirtyOrNone(env)), false, Some(ModulesOf(Simple(), ShownTree(env))))
      && Agrees(Simple(), ix.files, env, p)
  {
    ListPassIsExact(Simple(), NEW, env, p);
  }

  // ---------------------------------------------------------------------------------------------
  // A file that became ignored

  /** "a" was indexed at commit 0 and untracked by `git rm --cached` while an older ignore rule matches it. */
  const IGNORED_ENV: Env := Env(map["a" := File(Text(1), 0)], {}, map[0 := map["a" := Text(1)]], Some(0), Some(["a"]), true, {})
  const INDEXED: Index := Index(true, map["a" := Entry(Text(1), 0, ".")], RECORDED, RECORDED)
  const RECORDED: Meta := Meta(true, Some(0), [], false, Some(map[]))

  lemma {:induction false} IndexedIsKept()
    ensures Honest(IGNORED_ENV) && Kept(Simple(), INDEXED, IGNORED_ENV.trees)
  {
    assert ModulesOf(Simple(), IGNORED_ENV.trees[0]) == map[];
    assert UnitOf(Simple(), map[], "a") == ".";
  }

  lemma {:induction false} IgnoredFileStaysIndexed()
    ensures Honest(IGNORED_ENV) && Kept(Simple(), INDEXED, IGNORED_ENV.trees)
    ensures Wrong(INDEXED, IGNORED_ENV, "a")
  {
    IndexedIsKept();
    assert Changed(INDEXED, IGNORED_ENV) == {"a"};
    GitPassIsExact(Simple(), INDEXED, IGNORED_ENV, "a");
  }

  // ---------------------------------------------------------------------------------------------
  // A single file "a" beside a go.mod, at commit 0 with text 0 and at commit 1 with text 1

  const GO_MOD: Content := Content(0, "m")

  function Trees(): map<int, Tree>
  {
    map[0 := map["a" := Text(0), "go.mod" := GO_MOD], 1 := map["a" := Text(1), "go.mod" := GO_MOD]]
  }

  /** "a" holds the given text, written at the given time, at the given commit. */
  function One(text: int, time: int, head: int, dirty: Option<seq<string>>): Env
  {
    Env(map["a" := File(Text(text), time), "go.mod" := File(GO_MOD, 0)], {"a", "go.mod"}, Trees(), Some(head), dirty, true, {})
  }

  lemma {:induction false} OneIsHonest(text: int, time: int, head: int, dirty: Option<seq<string>>)
    requires (head == 0 || head == 1) && dirty in {None, Some([])} && (dirty.Some? ==> text == head)
    ensures Honest(One(text, time, head, dirty))
    ensures ModulesOf(Simple(), ShownTree(One(text, time, head, dirty))) == map["go.mod" := "m"]
  {
    assert Simple().kind("a") == Source && Simple().kind("go.mod") == Module;
  }

  /** The state after a first reconcile. */
  lemma {:induction false} OneFirst(text: int, time: int, dirty: Option<seq<string>>)
    requires dirty in {None, Some([])} && (dirty.Some? ==> text == 0)
    ensures var ix := ReconcilePass(Simple(), NEW, One(text, time, 0, dirty));
      && ix.published && ix.meta == Meta(true, Some(0), [], false, Some(map["go.mod" := "m"]))
      && "a" in ix.files && ix.files["a"].content == Text(text)
  {
    OneIsHonest(text, time, 0, dirty);
    FirstIsListed(One(text, time, 0, dirty), "a");
  }

  /** git status fails during a listing, then works again after the edit is undone: the edit stays in the index. */
  lemma {:induction false} FailedStatusForgets()
    ensures var edited, restored := One(1, 1, 0, None), One(0, 2, 0, Some([]));
      Honest(edited) && Honest(restored) && Wrong(ReconcilePass(Simple(), NEW, edited), restored, "a")
  {
    hide ReconcilePass, Honest;
    var edited, restored := One(1, 1, 0, None), One(0, 2, 0, Some([]));
    OneIsHonest(1, 1, 0, None);
    OneIsHonest(0, 2, 0, Some([]));
    OneFirst(1, 1, None);
    OneTree(0, 2, 0, Some([]));
    QuietIsExact(ReconcilePass(Simple(), NEW, edited), restored, "a");
  }

  lemma {:induction false} OneTree(text: int, time: int, head: int, dirty: Option<seq<string>>)
    requires head == 0 || head == 1
    ensures var env := One(text, time, head, dirty);
      env.head == Some(head) && env.dirty == dirty && 0 in env.trees && head in env.trees && Get(env.trees[head], "a") == Some(Text(head))
  {
  }

  /**
   The process ends between a reconcile's two writes, after publishing commit 1's text, and the workspace goes back to
   commit 0: after the restart the recorded commit is still 0, git reports nothing, and commit 1's text stays.
   */
  lemma {:induction false} InterruptionForgets(ix: Index)
    requires ix == ReconcilePass(Simple(), NEW, One(0, 1, 0, Some([])))
    ensures var first, second, back := One(0, 1, 0, Some([])), One(1, 2, 1, Some([])), One(0, 3, 0, Some([]));
      && Honest(first) && Honest(second) && Honest(back)
      && TreesKnown(ix, second) && Askable(ix) && Answers(Simple(), ix, second)
      && TreesKnown(Reopened(Interrupted(Simple(), ix, second)), back)
      && Wrong(Reopened(Interrupted(Simple(), ix, second)), back, "a")
  {
    hide ReconcilePass, Honest, GitPass, Answers, Interrupted;
    var second, back := One(1, 2, 1, Some([])), One(0, 3, 0, Some([]));
    OneIsHonest(0, 1, 0, Some([]));
    OneIsHonest(1, 2, 1, Some([]));
    OneIsHonest(0, 3, 0, Some([]));
    OneTree(0, 3, 0, Some([]));
    OneFirst(0, 1, Some([]));
    OneMoves(ix);
    assert "go.mod" in map["go.mod" := "m"];
    assert Simple().kind("a") == Source;
    QuietIsExact(Reopened(Interrupted(Simple(), ix, second)), back, "a");
  }

  lemma {:induction false} OneMoves(ix: Index)
    requires ix == ReconcilePass(Simple(), NEW, One(0, 1, 0, Some([])))
    ensures var second := One(1, 2, 1, Some([]));
      && TreesKnown(ix, second) && Askable(ix) && Answers(Simple(), ix, second)
      && var mid := Interrupted(Simple(), ix, second);
         mid.saved == ix.meta && mid.published && "a" in mid.files && mid.files["a"].content == Text(1)
  {
    hide ReconcilePass, GitPass, Answers, Simple, Trees;
    OneFirst(0, 1, Some([]));
    OneStat();
    OneAsks(ix);
    OneReindexed(ix);
  }

  lemma {:induction false} OneAsks(ix: Index)
    requires ix.published && ix.meta == Meta(true, Some(0), [], false, Some(map["go.mod" := "m"]))
    ensures var second := One(1, 2, 1, Some([])); TreesKnown(ix, second) && Askable(ix) && Answers(Simple(), ix, second)
  {
    hide Changed;
    OneChanged(ix);
    assert Simple().kind("a") == Source;
  }

  lemma {:induction false} OneReindexed(ix: Index)
    requires ix.published && ix.meta == Meta(true, Some(0), [], false, Some(map["go.mod" := "m"]))
    requires "a" in ix.files && ix.files["a"].stat == 1
    requires var second := One(1, 2, 1, Some([])); TreesKnown(ix, second) && Askable(ix) && Answers(Simple(), ix, second)
    ensures var files := GitPass(Simple(), ix, One(1, 2, 1, Some([]))).files; "a" in files && files["a"].content == Text(1)
  {
    hide Changed, UnitOf, Answers;
    var second := One(1, 2, 1, Some([]));
    OneChanged(ix);
    assert Simple().kind("a") == Source;
    var modules := map["go.mod" := "m"];
    var sources := set q | q in Changed(ix, second) && Simple().kind(q) == Source;
    ReindexedAt(Simple(), ix.files, second, modules, sources * second.work.Keys, sources - second.work.Keys, "a");
  }

  lemma {:induction false} OneChanged(ix: Index)
    requires ix.meta == Meta(true, Some(0), [], false, Some(map["go.mod" := "m"]))
    ensures Changed(ix, One(1, 2, 1, Some([]))) == {"a"}
  {
    assert "a" in Diff(Trees()[0], Trees()[1]);
  }

  lemma {:induction false} OneStat()
    ensures var ix := ReconcilePass(Simple(), NEW, One(0, 1, 0, Some([]))); "a" in ix.files && ix.files["a"].stat == 1
  {
    var env := One(0, 1, 0, Some([]));
    var sources := ShownSources(Simple(), env);
    ReindexedAt(Simple(), map[], env, ModulesOf(Simple(), ShownTree(env)), sources, {}, "a");
  }

  // ---------------------------------------------------------------------------------------------
  // A go.mod edited during a listing, then restored

  /** "a.go" beside a go.mod that declares the given module; commit 0 declares "m". */
  function WithModule(declared: string, dirty: seq<string>): Env
  {
    Env(map["a.go" := File(Text(0), 0), "go.mod" := File(Content(0, declared), 0)], {"a.go", "go.mod"},
        map[0 := map["a.go" := Text(0), "go.mod" := Content(0, "m")]], Some(0), Some(dirty), true, {})
  }

  lemma {:induction false} ModuleFacts(declared: string, dirty: seq<string>)
    requires declared != ""
    ensures var env := WithModule(declared, dirty);
      && (Honest(env) <==> declared == "m" || "go.mod" in dirty)
      && TrueUnit(Simple(), env, "a.go") == declared
      && Listed(Simple(), env, "a.go") == Some((Text(0), declared))
  {
    var env := WithModule(declared, dirty);
    assert Simple().kind("a.go") == Source;
    assert ModulesOf(Simple(), ShownTree(env)) == map["go.mod" := declared];
  }

  lemma {:induction false} EditedModuleForgets()
    ensures var edited, restored := WithModule("n", ["go.mod"]), WithModule("m", []);
      Honest(edited) && Honest(restored) && Wrong(ReconcilePass(Simple(), NEW, edited), restored, "a.go")
  {
    hide ReconcilePass, TrueUnit, Listed;
    var edited, restored := WithModule("n", ["go.mod"]), WithModule("m", []);
    ModuleFacts("n", ["go.mod"]);
    ModuleFacts("m", []);
    FirstIsListed(edited, "a.go");
    assert Sources(Simple(), ["go.mod"]) == [];
    QuietIsExact(ReconcilePass(Simple(), NEW, edited), restored, "a.go");
  }

  // ---------------------------------------------------------------------------------------------
  // More dirty paths than are remembered

  function Name(i: nat): string { seq(i + 1, _ => 'a') }

  lemma {:induction false} NamesIncrease(i: nat, j: nat)
    requires i < j
    ensures Less(Name(i), Name(j))
    decreases i
  {
    assert Name(i)[0] == Name(j)[0];
    if i > 0 {
      assert Name(i)[1..] == Name(i - 1) && Name(j)[1..] == Name(j - 1);
      NamesIncrease(i - 1, j - 1);
    }
  }

  function Names(n: nat): seq<string> { seq(n, i requires 0 <= i => Name(i)) }

  lemma {:induction false} NamesAreSources(n: nat)
    ensures Sources(Simple(), Names(n)) == Names(n)
  {
    hide Simple, InsertPath, Increasing;
    if n > 0 {
      NamesAreSources(n - 1);
      assert Names(n)[..n - 1] == Names(n - 1);
      assert Names(n) == Names(n - 1) + [Name(n - 1)];
      NameIsSource(n - 1);
      NamesAreIncreasing(n - 1);
      InsertLast(Names(n - 1), Name(n - 1)) by { if n > 1 { NamesIncrease(n - 2, n - 1); } }
    }
  }

  lemma {:induction false} NameIsSource(k: nat)
    ensures Simple().kind(Name(k)) == Source
  {
    assert Name(k)[0] == 'a' && "go.mod"[0] == 'g';
  }

  lemma {:induction false} NamesAreIncreasing(n: nat)
    ensures Increasing(Names(n))
  {
    forall i, j | 0 <= i < j < n ensures Less(Names(n)[i], Names(n)[j]) { NamesIncrease(i, j); }
  }

  lemma {:induction false} InsertLast(s: seq<string>, p: string)
    requires Increasing(s) && (s != [] ==> Less(s[|s| - 1], p))
    ensures InsertPath(s, p) == s + [p]
  {
    Irreflexive(p);
  }

  /** The first n names hold one text, written at one time, at a commit where each has text 0. */
  function Many(n: nat, text: int, time: int, dirty: seq<string>): Env
  {
    var shown := set p | p in Names(n);
    Env(map p | p in shown :: File(Text(text), time), shown, map[0 := map p | p in shown :: Text(0)], Some(0), Some(dirty), true, {})
  }

  lemma {:induction false} ManyFacts(n: nat, k: nat, text: int, time: int, dirty: seq<string>)
    requires k < n && (text == 0 || dirty == Names(n))
    ensures var env := Many(n, text, time, dirty);
      && Honest(env) && Simple().kind(Name(k)) == Source
      && Shown(env, Name(k)) == Some(Text(text))
      && env.head == Some(0) && env.dirty == Some(dirty) && 0 in env.trees
      && Get(env.trees[0], Name(k)) == Some(Text(0))
  {
    assert Names(n)[k] == Name(k);
    assert Name(k)[0] == 'a' && "go.mod"[0] == 'g';
  }

  lemma {:induction false} ManyHaveNoModules(n: nat, text: int, time: int, dirty: seq<string>)
    ensures ModulesOf(Simple(), ShownTree(Many(n, text, time, dirty))) == map[]
  {
    forall p | p in Names(n) ensures Simple().kind(p) == Source {
      var k :| 0 <= k < n && Names(n)[k] == p;
      assert Name(k)[0] == 'a' && "go.mod"[0] == 'g';
    }
  }

  /** More than 4096 files edited and listed but not all remembered. */
  lemma {:induction false} ManyForgets(n: nat)
    requires n > 4096
    ensures Name(4096) !in Indexable(Simple(), Names(n))
  {
    NamesAreSources(n);
    assert Names(n)[MAX_TOUCHED] == Name(MAX_TOUCHED);
    NotAmongEarlier(Names(n), MAX_TOUCHED);
  }

  /** More than 4096 files are edited and listed, then all restored: the first one not remembered keeps its edit in the index. */
  lemma {:induction false} TruncationForgets(n: nat)
    requires n > 4096
    ensures var edited, restored := Many(n, 1, 1, Names(n)), Many(n, 0, 2, []);
      && Honest(edited) && Honest(restored)
      && Wrong(ReconcilePass(Simple(), NEW, edited), restored, Name(4096))
  {
    hide ReconcilePass, Honest, Indexable, Names, Name, Sources, Many, ModulesOf, ShownTree, Simple;
    var p := Name(MAX_TOUCHED);
    var edited, restored := Many(n, 1, 1, Names(n)), Many(n, 0, 2, []);
    ManyFacts(n, MAX_TOUCHED, 1, 1, Names(n));
    ManyFacts(n, MAX_TOUCHED, 0, 2, []);
    ManyForgets(n);
    ManyHaveNoModules(n, 1, 1, Names(n));
    FirstIsListed(edited, p);
    QuietIsExact(ReconcilePass(Simple(), NEW, edited), restored, p);
  }
}
