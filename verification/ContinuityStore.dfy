/**
 * src/continuity/continuity-store.ts: projects, their worktrees and the
 * versions of their semantic records, changed by one transaction at a time.
 */
module ContinuityStore {
  import opened Wrappers

  datatype Problem = NotFound | Conflict

  /** One table per map; validated JSON columns are strings. */
  datatype Project = Project(aliasKey: string, roots: seq<string>, current: nat, createdAt: nat, updatedAt: nat)

  datatype Identity = Identity(
    canonicalPath: string,
    repositoryRoot: string,
    gitDirs: string,
    repositoryIdentity: string,
    worktreeIdentity: string)

  datatype Worktree = Worktree(identity: Identity, local: string, published: string)

  datatype Record = Record(semantic: string, createdAt: nat)

  datatype Version = Version(projectId: string, number: nat)

  datatype Tables = Tables(
    projects: map<string, Project>,
    worktrees: map<string, Worktree>,
    records: map<Version, Record>)

  const EMPTY := Tables(map[], map[], map[])

  /** The join that `getByAlias` reads. */
  datatype Stored = Stored(id: string, project: Project, worktree: Worktree, record: Record)

  // ---------------------------------------------------------------- the declared keys

  predicate AliasTaken(tables: Tables, key: string) {
    exists id :: id in tables.projects && tables.projects[id].aliasKey == key
  }

  /** `canonical_path` is unique among the worktrees of other projects. */
  predicate PathTaken(tables: Tables, path: string, owner: string) {
    exists id :: id in tables.worktrees && id != owner && tables.worktrees[id].identity.canonicalPath == path
  }

  // ---------------------------------------------------------------- transactions

  datatype Operation =
    | Register(id: string, aliasKey: string, roots: seq<string>, worktree: Worktree, semantic: string)
    | Rebind(id: string, expected: nat, roots: seq<string>, worktree: Worktree)
    | Checkpoint(id: string, expected: nat, local: string, published: string, semantic: string)
    | UpdateState(id: string, local: string, published: string)

  /** Why a transaction is rolled back; None when it commits. */
  predicate Stale(tables: Tables, id: string, expected: nat)
    requires id in tables.projects
  {
    tables.projects[id].current != expected
  }

  function Refusal(tables: Tables, op: Operation): Option<Problem> {
    match op
    case Register(id, aliasKey, _, worktree, _) =>
      if id in tables.projects || AliasTaken(tables, aliasKey) then Some(Conflict)
      else if id in tables.worktrees || PathTaken(tables, worktree.identity.canonicalPath, id) then Some(Conflict)
      else if Version(id, 1) in tables.records then Some(Conflict)
      else None
    case Rebind(id, expected, _, worktree) =>
      if id !in tables.projects then Some(NotFound)
      else if Stale(tables, id, expected) then Some(Conflict)
      else if id in tables.worktrees && PathTaken(tables, worktree.identity.canonicalPath, id) then Some(Conflict)
      else None
    case Checkpoint(id, expected, _, _, _) =>
      if id !in tables.projects then Some(NotFound)
      else if Stale(tables, id, expected) then Some(Conflict)
      else if Version(id, expected + 1) in tables.records then Some(Conflict)
      else None
    case UpdateState(id, _, _) =>
      if id !in tables.worktrees then Some(NotFound) else None
  }

  /** `UPDATE worktrees ... WHERE project_id = ?`: no effect when there is no such row. */
  function UpdateWorktree(worktrees: map<string, Worktree>, id: string, worktree: Worktree): map<string, Worktree> {
    if id in worktrees then worktrees[id := worktree] else worktrees
  }

  function UpdateStates(worktrees: map<string, Worktree>, id: string, local: string, published: string)
      : map<string, Worktree> {
    if id in worktrees then worktrees[id := worktrees[id].(local := local, published := published)] else worktrees
  }

  /** A committed transaction; `now` is the clock. */
  function Commit(tables: Tables, op: Operation, now: nat): Tables
    requires Refusal(tables, op).None?
  {
    match op
    case Register(id, aliasKey, roots, worktree, semantic) =>
      Tables(tables.projects[id := Project(aliasKey, roots, 1, now, now)],
             tables.worktrees[id := worktree],
             tables.records[Version(id, 1) := Record(semantic, now)])
    case Rebind(id, _, roots, worktree) =>
      tables.(projects := tables.projects[id := tables.projects[id].(roots := roots, createdAt := now,
                                                                     updatedAt := now)],
              worktrees := UpdateWorktree(tables.worktrees, id, worktree))
    case Checkpoint(id, expected, local, published, semantic) =>
      Tables(tables.projects[id := tables.projects[id].(current := expected + 1, updatedAt := now)],
             UpdateStates(tables.worktrees, id, local, published),
             tables.records[Version(id, expected + 1) := Record(semantic, now)])
    case UpdateState(id, local, published) =>
      tables.(worktrees := UpdateStates(tables.worktrees, id, local, published))
  }

  function Apply(tables: Tables, op: Operation, now: nat): Tables {
    if Refusal(tables, op).Some? then tables else Commit(tables, op, now)
  }

  /** What `getByAlias` finds. */
  predicate Found(tables: Tables, key: string, stored: Stored) {
    && stored.id in tables.projects && tables.projects[stored.id] == stored.project && stored.project.aliasKey == key
    && stored.id in tables.worktrees && tables.worktrees[stored.id] == stored.worktree
    && Version(stored.id, stored.project.current) in tables.records
    && tables.records[Version(stored.id, stored.project.current)] == stored.record
  }

  // ---------------------------------------------------------------- the store

  class Store {
    var projects: map<string, Project>
    var worktrees: map<string, Worktree>
    var records: map<Version, Record>

    function Snapshot(): Tables
      reads this
    {
      Tables(projects, worktrees, records)
    }

    constructor ()
      ensures Snapshot() == EMPTY
    {
      projects, worktrees, records := map[], map[], map[];
    }

    method RegisterProject(id: string, aliasKey: string, roots: seq<string>, worktree: Worktree, semantic: string,
                           now: nat)
      returns (problem: Option<Problem>)
      modifies this
      ensures var op := Register(id, aliasKey, roots, worktree, semantic);
              problem == old(Refusal(Snapshot(), op)) && Snapshot() == Apply(old(Snapshot()), op, now)
    {
      if id in projects || AliasTaken(Snapshot(), aliasKey) {
        return Some(Conflict);
      }
      if id in worktrees || PathTaken(Snapshot(), worktree.identity.canonicalPath, id) {
        return Some(Conflict);
      }
      if Version(id, 1) in records {
        return Some(Conflict);
      }
      projects := projects[id := Project(aliasKey, roots, 1, now, now)];
      worktrees := worktrees[id := worktree];
      records := records[Version(id, 1) := Record(semantic, now)];
      problem := None;
    }

    method RebindProject(id: string, expected: nat, roots: seq<string>, worktree: Worktree, now: nat)
      returns (problem: Option<Problem>)
      modifies this
      ensures var op := Rebind(id, expected, roots, worktree);
              problem == old(Refusal(Snapshot(), op)) && Snapshot() == Apply(old(Snapshot()), op, now)
    {
      if id !in projects {
        return Some(NotFound);
      }
      if projects[id].current != expected {
        return Some(Conflict);
      }
      if id in worktrees && PathTaken(Snapshot(), worktree.identity.canonicalPath, id) {
        return Some(Conflict);
      }
      projects := projects[id := projects[id].(roots := roots, createdAt := now, updatedAt := now)];
      worktrees := UpdateWorktree(worktrees, id, worktree);
      problem := None;
    }

    method CheckpointProject(id: string, expected: nat, local: string, published: string, semantic: string, now: nat)
      returns (problem: Option<Problem>)
      modifies this
      ensures var op := Checkpoint(id, expected, local, published, semantic);
              problem == old(Refusal(Snapshot(), op)) && Snapshot() == Apply(old(Snapshot()), op, now)
    {
      if id !in projects {
        return Some(NotFound);
      }
      if projects[id].current != expected {
        return Some(Conflict);
      }
      var nextVersion := projects[id].current + 1;
      if Version(id, nextVersion) in records {
        return Some(Conflict);
      }
      records := records[Version(id, nextVersion) := Record(semantic, now)];
      worktrees := UpdateStates(worktrees, id, local, published);
      projects := projects[id := projects[id].(current := nextVersion, updatedAt := now)];
      problem := None;
    }

    method UpdateOperationalState(id: string, local: string, published: string) returns (problem: Option<Problem>)
      modifies this
      ensures var op := UpdateState(id, local, published);
              problem == old(Refusal(Snapshot(), op)) && Snapshot() == Apply(old(Snapshot()), op, 0)
    {
      if id !in worktrees {
        return Some(NotFound);
      }
      worktrees := UpdateStates(worktrees, id, local, published);
      problem := None;
    }

    method GetByAlias(key: string) returns (r: Result<Stored, Problem>)
      ensures r.Success? ==> Found(Snapshot(), key, r.value)
      ensures r.Failure? ==> r.error == NotFound && forall stored :: !Found(Snapshot(), key, stored)
    {
      if id :| (&& id in projects && projects[id].aliasKey == key && id in worktrees
                && Version(id, projects[id].current) in records) {
        r := Success(Stored(id, projects[id], worktrees[id], records[Version(id, projects[id].current)]));
      } else {
        r := Failure(NotFound);
      }
    }
  }

  // ---------------------------------------------------------------- what every transaction keeps

  ghost predicate AliasesUnique(projects: map<string, Project>) {
    forall a, b :: a in projects && b in projects && projects[a].aliasKey == projects[b].aliasKey ==> a == b
  }

  predicate SamePath(worktrees: map<string, Worktree>, a: string, b: string) {
    && a in worktrees && b in worktrees
    && worktrees[a].identity.canonicalPath == worktrees[b].identity.canonicalPath
  }

  ghost predicate PathsUnique(worktrees: map<string, Worktree>) {
    forall a, b :: SamePath(worktrees, a, b) ==> a == b
  }

  predicate History(projects: map<string, Project>, records: map<Version, Record>, version: Version) {
    version in records <==>
      version.projectId in projects && 1 <= version.number <= projects[version.projectId].current
  }

  /** The records of a project are exactly its versions from 1 to the current one. */
  ghost predicate Histories(projects: map<string, Project>, records: map<Version, Record>) {
    && (forall version :: History(projects, records, version))
    && (forall id :: id in projects ==> projects[id].current >= 1)
  }

  ghost predicate Consistent(tables: Tables) {
    && tables.worktrees.Keys == tables.projects.Keys
    && AliasesUnique(tables.projects) && PathsUnique(tables.worktrees)
    && Histories(tables.projects, tables.records)
  }

  lemma HistoriesKept(tables: Tables, op: Operation, now: nat)
    requires Histories(tables.projects, tables.records) && Refusal(tables, op).None?
    ensures Histories(Commit(tables, op, now).projects, Commit(tables, op, now).records)
  {
    var after := Commit(tables, op, now);
    forall version
      ensures History(after.projects, after.records, version)
    {
      assert History(tables.projects, tables.records, version);
    }
  }

  lemma PathsKept(tables: Tables, op: Operation, now: nat)
    requires PathsUnique(tables.worktrees) && Refusal(tables, op).None?
    ensures PathsUnique(Commit(tables, op, now).worktrees)
  {
    var after := Commit(tables, op, now).worktrees;
    forall a, b | SamePath(after, a, b)
      ensures a == b
    {
      assert SamePath(tables.worktrees, a, b) || op.Register? || op.Rebind?;
      if a != op.id && b != op.id {
        assert SamePath(tables.worktrees, a, b);
      }
    }
  }

  lemma ApplyKeepsConsistent(tables: Tables, op: Operation, now: nat)
    requires Consistent(tables)
    ensures Consistent(Apply(tables, op, now))
  {
    if Refusal(tables, op).None? {
      HistoriesKept(tables, op, now);
      PathsKept(tables, op, now);
    }
  }

  // ---------------------------------------------------------------- every run

  datatype Timed = Timed(op: Operation, now: nat)

  function After(tables: Tables, ops: seq<Timed>): Tables {
    if ops == [] then tables
    else Apply(After(tables, ops[..|ops| - 1]), ops[|ops| - 1].op, ops[|ops| - 1].now)
  }

  /** The i-th transaction commits. */
  predicate Commits(tables: Tables, ops: seq<Timed>, i: nat)
    requires i < |ops|
  {
    Refusal(After(tables, ops[..i]), ops[i].op).None?
  }

  predicate Checkpoints(op: Operation, id: string) {
    op.Checkpoint? && op.id == id
  }

  /** How many checkpoints of the project commit. */
  function CommitCount(tables: Tables, ops: seq<Timed>, id: string): nat {
    if ops == [] then 0
    else
      var n := |ops| - 1;
      CommitCount(tables, ops[..n], id) + (if Commits(tables, ops, n) && Checkpoints(ops[n].op, id) then 1 else 0)
  }

  lemma {:induction false} RunKeepsConsistent(tables: Tables, ops: seq<Timed>)
    requires Consistent(tables)
    ensures Consistent(After(tables, ops))
  {
    if ops != [] {
      RunKeepsConsistent(tables, ops[..|ops| - 1]);
      ApplyKeepsConsistent(After(tables, ops[..|ops| - 1]), ops[|ops| - 1].op, ops[|ops| - 1].now);
    }
  }

  /** The store starts empty, so it is consistent after any transactions. */
  lemma EveryStoreIsConsistent(ops: seq<Timed>)
    ensures Consistent(After(EMPTY, ops))
  {
    forall version
      ensures History(EMPTY.projects, EMPTY.records, version)
    {
    }
    RunKeepsConsistent(EMPTY, ops);
  }

  /** A record, once written, never changes. */
  lemma {:induction false} RecordsStay(tables: Tables, ops: seq<Timed>, version: Version)
    requires version in tables.records
    ensures version in After(tables, ops).records && After(tables, ops).records[version] == tables.records[version]
  {
    if ops != [] {
      RecordsStay(tables, ops[..|ops| - 1], version);
    }
  }

  /** A project stays, with its alias; its version counts the checkpoints that committed, and nothing else moves it. */
  lemma {:induction false} VersionsCountCheckpoints(tables: Tables, ops: seq<Timed>, id: string)
    requires id in tables.projects
    ensures id in After(tables, ops).projects
    ensures After(tables, ops).projects[id].aliasKey == tables.projects[id].aliasKey
    ensures After(tables, ops).projects[id].current == tables.projects[id].current + CommitCount(tables, ops, id)
  {
    if ops != [] {
      VersionsCountCheckpoints(tables, ops[..|ops| - 1], id);
    }
  }

  lemma {:induction false} AfterAppend(tables: Tables, first: seq<Timed>, second: seq<Timed>)
    ensures After(tables, first + second) == After(After(tables, first), second)
    decreases |second|
  {
    var all := first + second;
    if second == [] {
      assert all == first;
    } else {
      AfterAppend(tables, first, second[..|second| - 1]);
      assert all[..|all| - 1] == first + second[..|second| - 1];
    }
  }

  /** Of checkpoints that expect the same version at most one commits. */
  lemma OneCheckpointWins(tables: Tables, ops: seq<Timed>, i: nat, j: nat)
    requires i < j < |ops| && ops[i].op.Checkpoint? && ops[j].op.Checkpoint?
    requires ops[i].op.id == ops[j].op.id && ops[i].op.expected == ops[j].op.expected
    ensures !(Commits(tables, ops, i) && Commits(tables, ops, j))
  {
    if Commits(tables, ops, i) {
      var (id, between) := (ops[i].op.id, ops[i + 1..j]);
      assert ops[..i + 1][..i] == ops[..i];
      var won := After(tables, ops[..i + 1]);
      AfterAppend(tables, ops[..i + 1], between);
      assert ops[..j] == ops[..i + 1] + between;
      VersionsCountCheckpoints(won, between, id);
    }
  }

  /** `getByAlias` finds every project, with its current record, and nothing else. */
  lemma AliasFindsCurrent(tables: Tables, id: string) returns (stored: Stored)
    requires Consistent(tables) && id in tables.projects
    ensures stored.id == id && Found(tables, tables.projects[id].aliasKey, stored)
    ensures forall other :: Found(tables, tables.projects[id].aliasKey, other) ==> other == stored
  {
    var version := Version(id, tables.projects[id].current);
    assert History(tables.projects, tables.records, version);
    stored := Stored(id, tables.projects[id], tables.worktrees[id], tables.records[version]);
  }
}
