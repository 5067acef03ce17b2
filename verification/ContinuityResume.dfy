/**
 * Resumed contexts in src/continuity/continuity-resume-registry.ts and their
 * revalidation in src/continuity/project-continuity-service.ts.
 */
module ContinuityResume {
  import opened ContinuityStore
  import opened Wrappers

  datatype Context = Context(
    projectId: string,
    alias: string,
    version: nat,
    canonicalPath: string,
    repositoryRoot: string,
    repositoryIdentity: string)

  // ---------------------------------------------------------------- the registry

  /** `key` is the digest of a lease id. */
  datatype Entry = Entry(key: string, context: Context)

  const MAX_RESUME_CONTEXTS := 256

  /** A map's entries in insertion order, without the one at this key. */
  function Without(entries: seq<Entry>, key: string): seq<Entry> {
    if entries == [] then []
    else
      var (init, last) := (Without(entries[..|entries| - 1], key), entries[|entries| - 1]);
      if last.key == key then init else init + [last]
  }

  function LastEntries(entries: seq<Entry>, n: nat): seq<Entry> {
    if |entries| <= n then entries else entries[|entries| - n..]
  }

  predicate Distinct(entries: seq<Entry>) {
    forall i, j :: 0 <= i < j < |entries| ==> entries[i].key != entries[j].key
  }

  predicate HasKey(entries: seq<Entry>, key: string) {
    exists i :: 0 <= i < |entries| && entries[i].key == key
  }

  class Registry {
    var records: seq<Entry>

    constructor ()
      ensures records == []
    {
      records := [];
    }

    method Register(key: string, context: Context)
      modifies this
      ensures records == LastEntries(Without(old(records), key), MAX_RESUME_CONTEXTS - 1) + [Entry(key, context)]
    {
      records := Without(records, key);
      while |records| >= MAX_RESUME_CONTEXTS
        invariant LastEntries(records, MAX_RESUME_CONTEXTS - 1)
                  == LastEntries(Without(old(records), key), MAX_RESUME_CONTEXTS - 1)
        decreases |records|
      {
        records := records[1..];
      }
      records := records + [Entry(key, context)];
    }

    method Require(key: string) returns (context: Option<Context>)
      ensures context.Some? ==> Entry(key, context.value) in records
      ensures context.None? ==> !HasKey(records, key)
    {
      var i := 0;
      while i < |records|
        invariant 0 <= i <= |records| && forall j :: 0 <= j < i ==> records[j].key != key
      {
        if records[i].key == key {
          return Some(records[i].context);
        }
        i := i + 1;
      }
      context := None;
    }
  }

  /** The registry after these registrations, in order. */
  function Registered(history: seq<Entry>): seq<Entry> {
    if history == [] then []
    else
      var (init, last) := (Registered(history[..|history| - 1]), history[|history| - 1]);
      LastEntries(Without(init, last.key), MAX_RESUME_CONTEXTS - 1) + [last]
  }

  /** Each lease once, in the order of its last registration. */
  function Latest(history: seq<Entry>): seq<Entry> {
    if history == [] then []
    else
      var (init, last) := (Latest(history[..|history| - 1]), history[|history| - 1]);
      Without(init, last.key) + [last]
  }

  lemma {:induction false} WithoutConcat(a: seq<Entry>, b: seq<Entry>, key: string)
    ensures Without(a + b, key) == Without(a, key) + Without(b, key)
    decreases |b|
  {
    var all := a + b;
    if b == [] {
      assert all == a;
    } else {
      WithoutConcat(a, b[..|b| - 1], key);
      assert all[..|all| - 1] == a + b[..|b| - 1];
    }
  }

  lemma {:induction false} WithoutMembers(entries: seq<Entry>, key: string)
    ensures forall e :: e in Without(entries, key) <==> e in entries && e.key != key
  {
    if entries != [] {
      WithoutMembers(entries[..|entries| - 1], key);
      assert entries == entries[..|entries| - 1] + [entries[|entries| - 1]];
    }
  }

  lemma NoKey(entries: seq<Entry>, key: string)
    requires forall e <- entries :: e.key != key
    ensures !HasKey(entries, key)
  {
    forall i | 0 <= i < |entries|
      ensures entries[i].key != key
    {
      assert entries[i] in entries;
    }
  }

  lemma DistinctSnoc(entries: seq<Entry>, last: Entry)
    requires Distinct(entries) && !HasKey(entries, last.key)
    ensures Distinct(entries + [last])
  {
  }

  lemma DistinctInit(entries: seq<Entry>)
    requires Distinct(entries) && entries != []
    ensures Distinct(entries[..|entries| - 1])
    ensures !HasKey(entries[..|entries| - 1], entries[|entries| - 1].key)
  {
  }

  lemma {:induction false} WithoutDistinct(entries: seq<Entry>, key: string)
    requires Distinct(entries)
    ensures Distinct(Without(entries, key))
  {
    if entries != [] {
      var (init, last) := (entries[..|entries| - 1], entries[|entries| - 1]);
      DistinctInit(entries);
      WithoutDistinct(init, key);
      WithoutMembers(init, key);
      forall e | e in Without(init, key)
        ensures e.key != last.key
      {
        var i :| 0 <= i < |init| && init[i] == e;
      }
      NoKey(Without(init, key), last.key);
      DistinctSnoc(Without(init, key), last);
    }
  }

  lemma {:induction false} WithoutSize(entries: seq<Entry>, key: string)
    requires Distinct(entries)
    ensures if HasKey(entries, key) then |Without(entries, key)| == |entries| - 1 else Without(entries, key) == entries
  {
    if entries != [] {
      var (init, last) := (entries[..|entries| - 1], entries[|entries| - 1]);
      DistinctInit(entries);
      WithoutSize(init, key);
      assert entries == init + [last];
      assert HasKey(entries, key) <==> HasKey(init, key) || last.key == key by {
        HasKeySnoc(init, last, key);
      }
    }
  }

  lemma HasKeySnoc(entries: seq<Entry>, last: Entry, key: string)
    ensures HasKey(entries + [last], key) <==> HasKey(entries, key) || last.key == key
  {
    var all := entries + [last];
    assert all[|entries|] == last;
    if HasKey(entries, key) {
      var i :| 0 <= i < |entries| && entries[i].key == key;
      assert all[i].key == key;
    }
  }

  /** Removing a key leaves the others alone. */
  lemma WithoutKey(entries: seq<Entry>, key: string)
    requires Distinct(entries)
    ensures Distinct(Without(entries, key)) && !HasKey(Without(entries, key), key)
    ensures forall e :: e in Without(entries, key) <==> e in entries && e.key != key
    ensures if HasKey(entries, key) then |Without(entries, key)| == |entries| - 1 else Without(entries, key) == entries
  {
    WithoutMembers(entries, key);
    WithoutDistinct(entries, key);
    WithoutSize(entries, key);
    NoKey(Without(entries, key), key);
  }

  lemma {:induction false} LatestDistinct(history: seq<Entry>)
    ensures Distinct(Latest(history))
  {
    if history != [] {
      var init := history[..|history| - 1];
      LatestDistinct(init);
      WithoutKey(Latest(init), history[|history| - 1].key);
    }
  }

  lemma LastOfConcat(a: seq<Entry>, b: seq<Entry>, n: nat)
    requires |b| >= n
    ensures LastEntries(a + b, n) == LastEntries(b, n)
  {
  }

  lemma LastAppend(entries: seq<Entry>, last: Entry, n: nat)
    requires n > 0
    ensures LastEntries(entries + [last], n) == LastEntries(entries, n - 1) + [last]
  {
  }

  lemma DistinctPart(a: seq<Entry>, b: seq<Entry>)
    requires Distinct(a + b)
    ensures Distinct(b)
  {
    assert forall j :: 0 <= j < |b| ==> b[j] == (a + b)[|a| + j];
  }

  /** Evicting before or after the re-inserted key is removed comes to the same. */
  lemma EvictionCommutes(all: seq<Entry>, key: string, n: nat)
    requires Distinct(all) && n > 0
    ensures LastEntries(Without(LastEntries(all, n), key), n - 1) == LastEntries(Without(all, key), n - 1)
  {
    if |all| > n {
      var (dropped, kept) := (all[..|all| - n], all[|all| - n..]);
      assert all == dropped + kept;
      DistinctPart(dropped, kept);
      WithoutConcat(dropped, kept, key);
      WithoutKey(kept, key);
      LastOfConcat(Without(dropped, key), Without(kept, key), n - 1);
    }
  }

  /** The registry is what is left of all leases when only the last 256 are kept. */
  lemma {:induction false} RegistryKeepsLast(history: seq<Entry>, n: nat)
    requires n == MAX_RESUME_CONTEXTS
    ensures Registered(history) == LastEntries(Latest(history), n)
  {
    if history != [] {
      var (init, last) := (history[..|history| - 1], history[|history| - 1]);
      RegistryKeepsLast(init, n);
      LatestDistinct(init);
      EvictionCommutes(Latest(init), last.key, n);
      LastAppend(Without(Latest(init), last.key), last, n);
    }
  }

  lemma RegistryDistinct(history: seq<Entry>)
    ensures Distinct(Registered(history)) && |Registered(history)| <= MAX_RESUME_CONTEXTS
  {
    RegistryKeepsLast(history, MAX_RESUME_CONTEXTS);
    LatestDistinct(history);
    var latest := Latest(history);
    if |latest| > MAX_RESUME_CONTEXTS {
      var n := |latest| - MAX_RESUME_CONTEXTS;
      assert latest == latest[..n] + latest[n..];
      DistinctPart(latest[..n], latest[n..]);
    }
  }

  /** The leases registered after the i-th registration. */
  function Later(history: seq<Entry>, i: nat): set<string> {
    set j | i < j < |history| :: history[j].key
  }

  function Keys(entries: seq<Entry>): set<string> {
    set j | 0 <= j < |entries| :: entries[j].key
  }

  lemma {:induction false} KeysSize(entries: seq<Entry>)
    requires Distinct(entries)
    ensures |Keys(entries)| == |entries|
  {
    if entries == [] {
      assert Keys(entries) == {};
    } else {
      var (init, last) := (entries[..|entries| - 1], entries[|entries| - 1]);
      KeysSize(init);
      KeysSnoc(init, last);
      assert entries == init + [last];
      assert last.key !in Keys(init);
    }
  }

  lemma KeysSnoc(entries: seq<Entry>, last: Entry)
    ensures Keys(entries + [last]) == Keys(entries) + {last.key}
  {
    var all := entries + [last];
    forall key | key in Keys(entries) + {last.key}
      ensures key in Keys(all)
    {
      if key == last.key {
        assert all[|entries|].key == key;
      } else {
        var j :| 0 <= j < |entries| && entries[j].key == key;
        assert all[j].key == key;
      }
    }
  }

  lemma KeysWithout(entries: seq<Entry>, key: string)
    requires Distinct(entries)
    ensures Keys(Without(entries, key)) == Keys(entries) - {key}
  {
    WithoutKey(entries, key);
    var rest := Without(entries, key);
    forall k
      ensures k in Keys(rest) <==> k in Keys(entries) - {key}
    {
      if k in Keys(rest) {
        var j :| 0 <= j < |rest| && rest[j].key == k;
        assert rest[j] in entries;
      }
      if k in Keys(entries) && k != key {
        var j :| 0 <= j < |entries| && entries[j].key == k;
        assert entries[j] in rest;
      }
    }
  }

  /** A last registration stands in the order of leases before exactly those registered later. */
  lemma {:induction false} PlaceOf(history: seq<Entry>, i: nat) returns (p: nat)
    requires i < |history| && history[i].key !in Later(history, i)
    ensures p < |Latest(history)| && Latest(history)[p] == history[i]
    ensures Keys(Latest(history)[p + 1..]) == Later(history, i)
    decreases |history|, 0
  {
    var n := |history| - 1;
    if i == n {
      p := |Latest(history)| - 1;
      assert Latest(history)[p + 1..] == [];
    } else {
      p := PlaceInMore(history[..n], history[n], i);
      assert history == history[..n] + [history[n]];
    }
  }

  lemma {:induction false} PlaceInMore(init: seq<Entry>, last: Entry, i: nat) returns (p: nat)
    requires i < |init| && init[i].key !in Later(init + [last], i)
    ensures p < |Latest(init + [last])| && Latest(init + [last])[p] == init[i]
    ensures Keys(Latest(init + [last])[p + 1..]) == Later(init + [last], i)
    decreases |init|, 1
  {
    assert (init + [last])[..|init|] == init;
    LaterSnoc(init, last, i);
    var latest := Latest(init);
    var q := PlaceOf(init, i);
    LatestDistinct(init);
    assert latest == latest[..q] + [latest[q]] + latest[q + 1..];
    p := PlaceKept(latest[..q], latest[q], latest[q + 1..], last);
  }

  lemma LaterSnoc(init: seq<Entry>, last: Entry, i: nat)
    requires i < |init|
    ensures Later(init + [last], i) == Later(init, i) + {last.key}
  {
    var all := init + [last];
    forall key | key in Later(init, i) + {last.key}
      ensures key in Later(all, i)
    {
      if key == last.key {
        assert all[|init|].key == key;
      } else {
        var j :| i < j < |init| && init[j].key == key;
        assert all[j].key == key;
      }
    }
  }

  lemma WithoutAround(a: seq<Entry>, x: Entry, b: seq<Entry>, key: string)
    requires x.key != key
    ensures Without(a + [x] + b, key) == Without(a, key) + [x] + Without(b, key)
  {
    WithoutConcat(a + [x], b, key);
    WithoutConcat(a, [x], key);
    assert [x][..0] == [] && Without([x], key) == [x];
  }

  lemma Behind(a: seq<Entry>, x: Entry, b: seq<Entry>, last: Entry)
    ensures (a + [x] + b + [last])[|a|] == x && (a + [x] + b + [last])[|a| + 1..] == b + [last]
  {
  }

  lemma PlaceKept(a: seq<Entry>, x: Entry, b: seq<Entry>, last: Entry) returns (p: nat)
    requires Distinct(a + [x] + b) && x.key != last.key
    ensures var after := Without(a + [x] + b, last.key) + [last];
            p < |after| && after[p] == x && Keys(after[p + 1..]) == Keys(b) + {last.key}
  {
    DistinctPart(a + [x], b);
    WithoutAround(a, x, b, last.key);
    Behind(Without(a, last.key), x, Without(b, last.key), last);
    KeysWithout(b, last.key);
    KeysSnoc(Without(b, last.key), last);
    p := |Without(a, last.key)|;
  }

  /**
   * At every point the registry holds a lease exactly when fewer than 256 other
   * leases were registered after it last was.
   */
  lemma RegistryHoldsRecent(history: seq<Entry>, i: nat)
    requires i < |history| && history[i].key !in Later(history, i)
    ensures history[i] in Registered(history) <==> |Later(history, i)| < MAX_RESUME_CONTEXTS
    ensures HasKey(Registered(history), history[i].key) ==> history[i] in Registered(history)
  {
    var p := PlaceOf(history, i);
    var latest := Latest(history);
    LatestDistinct(history);
    RegistryKeepsLast(history, MAX_RESUME_CONTEXTS);
    assert latest == latest[..p + 1] + latest[p + 1..];
    DistinctPart(latest[..p + 1], latest[p + 1..]);
    KeysSize(latest[p + 1..]);
    LastHolds(latest, p, MAX_RESUME_CONTEXTS);
  }

  lemma LastHolds(latest: seq<Entry>, p: nat, n: nat)
    requires Distinct(latest) && p < |latest|
    ensures latest[p] in LastEntries(latest, n) <==> |latest| - p <= n
    ensures HasKey(LastEntries(latest, n), latest[p].key) ==> latest[p] in LastEntries(latest, n)
  {
    var kept := LastEntries(latest, n);
    var dropped := |latest| - |kept|;
    assert forall j :: 0 <= j < |kept| ==> kept[j] == latest[dropped + j];
    if p >= dropped {
      assert kept[p - dropped] == latest[p];
    }
  }

  // ---------------------------------------------------------------- resuming and revalidating

  function ContextOf(stored: Stored): Context {
    var identity := stored.worktree.identity;
    Context(stored.id, stored.project.aliasKey, stored.project.current,
            identity.canonicalPath, identity.repositoryRoot, identity.repositoryIdentity)
  }

  /** `sameCanonicalRootSet`: equal when sorted. */
  predicate SameRoots(left: seq<string>, right: seq<string>) {
    multiset(left) == multiset(right)
  }

  datatype Denial = ResumeRequired | ProjectNotFound | LeaseDenied

  /** The registered context is what the store now says, and the lease is for the registered roots. */
  predicate Matches(
      registered: seq<Entry>, tables: Tables, key: string, lease: Option<seq<string>>, context: Context, stored: Stored)
  {
    && Entry(key, context) in registered
    && Found(tables, context.alias, stored) && ContextOf(stored) == context
    && lease.Some? && SameRoots(lease.value, stored.project.roots)
  }

  lemma KeyNamesOne(entries: seq<Entry>, key: string, a: Context, b: Context)
    requires Distinct(entries) && Entry(key, a) in entries && Entry(key, b) in entries
    ensures a == b
  {
  }

  /** `lease` holds the roots of the Project lease, None when the id resolves to no such lease. */
  method RevalidateResumeContext(registry: Registry, store: Store, key: string, lease: Option<seq<string>>)
    returns (r: Result<Context, Denial>)
    requires Distinct(registry.records) && Consistent(store.Snapshot())
    ensures r.Success? ==> exists stored :: Matches(registry.records, store.Snapshot(), key, lease, r.value, stored)
    ensures r.Failure? ==>
              forall context, stored :: !Matches(registry.records, store.Snapshot(), key, lease, context, stored)
  {
    var context := registry.Require(key);
    if context.None? {
      return Failure(ResumeRequired);
    }
    forall other | Entry(key, other) in registry.records
      ensures other == context.value
    {
      KeyNamesOne(registry.records, key, other, context.value);
    }
    var found := store.GetByAlias(context.value.alias);
    if found.Failure? {
      return Failure(ProjectNotFound);
    }
    var stored := found.value;
    ghost var only := AliasFindsCurrent(store.Snapshot(), stored.id);
    assert forall other :: Found(store.Snapshot(), context.value.alias, other) ==> other == stored;
    if lease.None? || !SameRoots(lease.value, stored.project.roots) {
      return Failure(LeaseDenied);
    }
    var identity := stored.worktree.identity;
    if stored.id != context.value.projectId
      || stored.project.current != context.value.version
      || identity.canonicalPath != context.value.canonicalPath
      || identity.repositoryRoot != context.value.repositoryRoot
      || identity.repositoryIdentity != context.value.repositoryIdentity {
      return Failure(ResumeRequired);
    }
    r := Success(context.value);
    assert Matches(registry.records, store.Snapshot(), key, lease, context.value, stored);
  }

  /** The worktree columns a context remembers. */
  predicate SamePlace(a: Identity, b: Identity) {
    && a.canonicalPath == b.canonicalPath && a.repositoryRoot == b.repositoryRoot
    && a.repositoryIdentity == b.repositoryIdentity
  }

  /**
   * Whatever transactions ran since a resume read its project, the context it
   * registered still matches exactly when no checkpoint of the project has
   * committed and the worktree's path, root and repository are those it read.
   */
  lemma MatchesUntilCheckpoint(tables: Tables, key: string, read: Stored, ops: seq<Timed>, now: Stored)
    requires Consistent(tables) && Found(tables, key, read)
    requires Found(After(tables, ops), key, now)
    ensures ContextOf(now) == ContextOf(read) <==>
              CommitCount(tables, ops, read.id) == 0 && SamePlace(now.worktree.identity, read.worktree.identity)
    ensures now.id == read.id
  {
    RunKeepsConsistent(tables, ops);
    VersionsCountCheckpoints(tables, ops, read.id);
  }

  /** What revalidation demands of its registry and store holds of all that can be reached. */
  lemma ReachableAreValid(history: seq<Entry>, ops: seq<Timed>)
    ensures Distinct(Registered(history)) && |Registered(history)| <= MAX_RESUME_CONTEXTS
    ensures Consistent(After(EMPTY, ops))
  {
    RegistryDistinct(history);
    EveryStoreIsConsistent(ops);
  }

  /**
   * A resume read the project as `read` and registered its context; then any
   * other leases were registered and any transactions run. The lease
   * revalidates exactly when fewer than 256 other leases came after it, no
   * checkpoint of the project committed, the worktree's place is unchanged, and
   * the lease is for the roots the project has now.
   */
  lemma RevalidatesExactly(history: seq<Entry>, i: nat, ops: seq<Timed>, later: seq<Timed>, read: Stored,
                           lease: Option<seq<string>>) returns (now: Stored)
    requires i < |history| && history[i].key !in Later(history, i) && history[i].context == ContextOf(read)
    requires Found(After(EMPTY, ops), read.project.aliasKey, read)
    ensures Found(After(EMPTY, ops + later), read.project.aliasKey, now) && now.id == read.id
    ensures (exists context, stored ::
               Matches(Registered(history), After(EMPTY, ops + later), history[i].key, lease, context, stored))
            <==> && |Later(history, i)| < MAX_RESUME_CONTEXTS
                 && CommitCount(After(EMPTY, ops), later, read.id) == 0
                 && SamePlace(now.worktree.identity, read.worktree.identity)
                 && lease.Some? && SameRoots(lease.value, now.project.roots)
  {
    var (registered, tables) := (Registered(history), After(EMPTY, ops + later));
    ReachableAreValid(history, ops);
    ReachableAreValid(history, ops + later);
    AfterAppend(EMPTY, ops, later);
    VersionsCountCheckpoints(After(EMPTY, ops), later, read.id);
    now := AliasFindsCurrent(tables, read.id);
    RegistryHoldsRecent(history, i);
    MatchesUntilCheckpoint(After(EMPTY, ops), read.project.aliasKey, read, later, now);
    var key := history[i].key;
    forall context, stored | Matches(registered, tables, key, lease, context, stored)
      ensures history[i] in registered && context == history[i].context && stored == now
    {
      var m :| 0 <= m < |registered| && registered[m] == Entry(key, context);
      assert registered[m].key == key;
      KeyNamesOne(registered, key, context, history[i].context);
    }
    if history[i] in registered && ContextOf(now) == ContextOf(read) && lease.Some?
      && SameRoots(lease.value, now.project.roots) {
      assert Matches(registered, tables, key, lease, history[i].context, now);
    }
  }
}
