/**
 * The continuity tables as one story per project: whatever transactions run,
 * the three tables say what the simple account of each project says.
 */
module ContinuityHistory {
  import opened ContinuityStore
  import opened Wrappers

  /** All that is known of one project; its n-th record is the n-th of the sequence. */
  datatype Story = Story(
    alias: string,
    roots: seq<string>,
    worktree: Worktree,
    records: seq<Record>,
    createdAt: nat,
    updatedAt: nat)

  type Stories = map<string, Story>

  predicate AliasUsed(stories: Stories, alias: string) {
    exists id :: id in stories && stories[id].alias == alias
  }

  /** Another project has its worktree there. */
  predicate PathUsed(stories: Stories, path: string, owner: string) {
    exists id :: id in stories && id != owner && stories[id].worktree.identity.canonicalPath == path
  }

  /** Whether a transaction commits: ids, aliases and paths are not shared, and the version expected is the latest. */
  predicate Accepted(stories: Stories, op: Operation) {
    match op
    case Register(id, alias, _, worktree, _) =>
      && id !in stories && !AliasUsed(stories, alias)
      && !PathUsed(stories, worktree.identity.canonicalPath, id)
    case Rebind(id, expected, _, worktree) =>
      && id in stories && expected == |stories[id].records|
      && !PathUsed(stories, worktree.identity.canonicalPath, id)
    case Checkpoint(id, expected, _, _, _) => id in stories && expected == |stories[id].records|
    case UpdateState(id, _, _) => id in stories
  }

  /** What it adds to the story of its project. */
  function Told(stories: Stories, op: Operation, now: nat): Story
    requires Accepted(stories, op)
  {
    match op
    case Register(id, alias, roots, worktree, semantic) =>
      Story(alias, roots, worktree, [Record(semantic, now)], now, now)
    case Rebind(id, _, roots, worktree) =>
      stories[id].(roots := roots, worktree := worktree, createdAt := now, updatedAt := now)
    case Checkpoint(id, _, local, published, semantic) =>
      stories[id].(worktree := stories[id].worktree.(local := local, published := published),
                   records := stories[id].records + [Record(semantic, now)], updatedAt := now)
    case UpdateState(id, local, published) =>
      stories[id].(worktree := stories[id].worktree.(local := local, published := published))
  }

  function Next(stories: Stories, op: Operation, now: nat): Stories {
    if Accepted(stories, op) then stories[op.id := Told(stories, op, now)] else stories
  }

  function StoriesOf(ops: seq<Timed>): Stories {
    if ops == [] then map[]
    else Next(StoriesOf(ops[..|ops| - 1]), ops[|ops| - 1].op, ops[|ops| - 1].now)
  }

  // ---------------------------------------------------------------- the tables tell the stories

  predicate ProjectTells(tables: Tables, stories: Stories, id: string)
    requires id in stories && id in tables.projects && id in tables.worktrees
  {
    var story := stories[id];
    && tables.projects[id] == Project(story.alias, story.roots, |story.records|, story.createdAt, story.updatedAt)
    && tables.worktrees[id] == story.worktree
  }

  /** A version is stored exactly when the story has it. */
  predicate RecordTells(tables: Tables, stories: Stories, version: Version) {
    var known := version.projectId in stories && 1 <= version.number <= |stories[version.projectId].records|;
    && (version in tables.records <==> known)
    && (known && version in tables.records ==>
          tables.records[version] == stories[version.projectId].records[version.number - 1])
  }

  ghost predicate Tells(tables: Tables, stories: Stories) {
    && tables.projects.Keys == stories.Keys && tables.worktrees.Keys == stories.Keys
    && (forall id :: id in stories ==> ProjectTells(tables, stories, id))
    && (forall version :: RecordTells(tables, stories, version))
  }

  lemma AliasAgrees(tables: Tables, stories: Stories, alias: string)
    requires Tells(tables, stories)
    ensures AliasTaken(tables, alias) <==> AliasUsed(stories, alias)
  {
    if id :| id in tables.projects && tables.projects[id].aliasKey == alias {
      assert ProjectTells(tables, stories, id) && stories[id].alias == alias;
    }
    if id :| id in stories && stories[id].alias == alias {
      assert ProjectTells(tables, stories, id) && tables.projects[id].aliasKey == alias;
    }
  }

  lemma PathAgrees(tables: Tables, stories: Stories, path: string, owner: string)
    requires Tells(tables, stories)
    ensures PathTaken(tables, path, owner) <==> PathUsed(stories, path, owner)
  {
    if id :| id in tables.worktrees && id != owner && tables.worktrees[id].identity.canonicalPath == path {
      assert ProjectTells(tables, stories, id) && stories[id].worktree.identity.canonicalPath == path;
    }
    if id :| id in stories && id != owner && stories[id].worktree.identity.canonicalPath == path {
      assert ProjectTells(tables, stories, id) && tables.worktrees[id].identity.canonicalPath == path;
    }
  }

  lemma CommitsAgree(tables: Tables, stories: Stories, op: Operation)
    requires Tells(tables, stories)
    ensures Refusal(tables, op).None? <==> Accepted(stories, op)
  {
    assert op.id in stories ==> ProjectTells(tables, stories, op.id);
    match op
    case Register(id, alias, _, worktree, _) =>
      AliasAgrees(tables, stories, alias);
      PathAgrees(tables, stories, worktree.identity.canonicalPath, id);
      assert RecordTells(tables, stories, Version(id, 1));
    case Rebind(id, _, _, worktree) =>
      PathAgrees(tables, stories, worktree.identity.canonicalPath, id);
    case Checkpoint(id, expected, _, _, _) =>
      assert RecordTells(tables, stories, Version(id, expected + 1));
    case UpdateState(id, _, _) =>
  }

  lemma RecordsStep(tables: Tables, stories: Stories, op: Operation, now: nat, version: Version)
    requires Tells(tables, stories) && Accepted(stories, op) && Refusal(tables, op).None?
    ensures RecordTells(Commit(tables, op, now), Next(stories, op, now), version)
  {
    assert RecordTells(tables, stories, version);
    assert op.id in stories ==> ProjectTells(tables, stories, op.id);
  }

  lemma ProjectsStep(tables: Tables, stories: Stories, op: Operation, now: nat, id: string)
    requires Tells(tables, stories) && Accepted(stories, op) && Refusal(tables, op).None?
    requires id in Next(stories, op, now)
    ensures var after := Commit(tables, op, now);
            id in after.projects && id in after.worktrees && ProjectTells(after, Next(stories, op, now), id)
  {
    assert id in stories ==> ProjectTells(tables, stories, id);
  }

  lemma KeysStep(tables: Tables, stories: Stories, op: Operation, now: nat)
    requires Tells(tables, stories) && Accepted(stories, op) && Refusal(tables, op).None?
    ensures var (after, next) := (Commit(tables, op, now), Next(stories, op, now));
            after.projects.Keys == next.Keys && after.worktrees.Keys == next.Keys
  {
  }

  lemma StepTells(tables: Tables, stories: Stories, op: Operation, now: nat)
    requires Tells(tables, stories)
    ensures Tells(Apply(tables, op, now), Next(stories, op, now))
  {
    CommitsAgree(tables, stories, op);
    if Accepted(stories, op) {
      CommitTells(tables, stories, op, now, Commit(tables, op, now), Next(stories, op, now));
    }
  }

  lemma CommitTells(tables: Tables, stories: Stories, op: Operation, now: nat, after: Tables, next: Stories)
    requires Tells(tables, stories) && Accepted(stories, op) && Refusal(tables, op).None?
    requires after == Commit(tables, op, now) && next == Next(stories, op, now)
    ensures Tells(after, next)
  {
    KeysStep(tables, stories, op, now);
    forall id | id in next
      ensures ProjectTells(after, next, id)
    {
      ProjectsStep(tables, stories, op, now, id);
    }
    forall version
      ensures RecordTells(after, next, version)
    {
      RecordsStep(tables, stories, op, now, version);
    }
  }

  /** After any transactions the tables say exactly what the stories say. */
  lemma {:induction false} TablesTellStories(ops: seq<Timed>)
    ensures Tells(After(EMPTY, ops), StoriesOf(ops))
  {
    if ops == [] {
      forall version
        ensures RecordTells(EMPTY, map[], version)
      {
      }
    } else {
      var last := ops[|ops| - 1];
      TablesTellStories(ops[..|ops| - 1]);
      StepTells(After(EMPTY, ops[..|ops| - 1]), StoriesOf(ops[..|ops| - 1]), last.op, last.now);
    }
  }

  /** In every run a transaction commits exactly when the stories so far accept it. */
  lemma CommitsAsTold(ops: seq<Timed>, i: nat)
    requires i < |ops|
    ensures Commits(EMPTY, ops, i) <==> Accepted(StoriesOf(ops[..i]), ops[i].op)
  {
    TablesTellStories(ops[..i]);
    CommitsAgree(After(EMPTY, ops[..i]), StoriesOf(ops[..i]), ops[i].op);
  }

  /** No transaction from the i-th on is a committed checkpoint of the project. */
  ghost predicate NoneSince(ops: seq<Timed>, i: nat, id: string) {
    forall j :: i <= j < |ops| && Checkpoints(ops[j].op, id) ==> !Commits(EMPTY, ops, j)
  }

  lemma {:induction false} RecordsKept(ops: seq<Timed>, i: nat, id: string)
    requires i <= |ops| && id in StoriesOf(ops[..i]) && NoneSince(ops, i, id)
    ensures id in StoriesOf(ops) && StoriesOf(ops).Keys >= StoriesOf(ops[..i]).Keys
    ensures StoriesOf(ops)[id].records == StoriesOf(ops[..i])[id].records
    decreases |ops|
  {
    if i < |ops| {
      var (init, n) := (ops[..|ops| - 1], |ops| - 1);
      assert init[..i] == ops[..i];
      forall j | i <= j < |init| && Checkpoints(init[j].op, id)
        ensures !Commits(EMPTY, init, j)
      {
        assert init[..j] == ops[..j] && Checkpoints(ops[j].op, id);
      }
      RecordsKept(init, i, id);
      CommitsAsTold(ops, n);
      assert ops[..n] == init;
    } else {
      assert ops[..i] == ops;
    }
  }

  /** The current record of a project is the one its last committed checkpoint was given. */
  lemma LastCheckpointIsCurrent(ops: seq<Timed>, i: nat)
    requires i < |ops| && ops[i].op.Checkpoint? && Commits(EMPTY, ops, i) && NoneSince(ops, i + 1, ops[i].op.id)
    ensures var (tables, op) := (After(EMPTY, ops), ops[i].op);
            && op.id in tables.projects && Version(op.id, tables.projects[op.id].current) in tables.records
            && tables.records[Version(op.id, tables.projects[op.id].current)] == Record(op.semantic, ops[i].now)
  {
    var id := ops[i].op.id;
    CommitsAsTold(ops, i);
    assert ops[..i + 1][..i] == ops[..i];
    RecordsKept(ops, i + 1, id);
    TablesTellStories(ops);
    var (tables, stories) := (After(EMPTY, ops), StoriesOf(ops));
    assert ProjectTells(tables, stories, id);
    assert RecordTells(tables, stories, Version(id, tables.projects[id].current));
  }
}
