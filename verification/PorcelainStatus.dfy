/**
 * `parsePorcelainStatus` in src/continuity/continuity-git-inspector.ts: the
 * paths in the output of `git status --porcelain=v1 -z`.
 */
module PorcelainStatus {
  import opened KeyOrder
  import opened Wrappers

  datatype Problem = InvalidEntry | IncompleteRename

  datatype Changes = Changes(staged: set<string>, unstaged: set<string>, untracked: set<string>)

  datatype Status = Status(staged: seq<string>, unstaged: seq<string>, untracked: seq<string>, truncated: bool)

  const NO_CHANGES := Changes({}, {}, {})

  const NUL := 0 as char

  // ---------------------------------------------------------------- what Git prints

  /** `origin` is the old path of a rename or copy. */
  datatype Entry = Entry(x: char, y: char, path: string, origin: Option<string>)

  predicate Moved(x: char, y: char) {
    x in {'R', 'C'} || y in {'R', 'C'}
  }

  predicate IsUntracked(x: char, y: char) {
    x == '?' && y == '?'
  }

  predicate Counts(status: char) {
    status !in {' ', '!', '?'}
  }

  predicate Printable(field: string) {
    field != "" && NUL !in field
  }

  predicate WellFormed(e: Entry) {
    && e.x != NUL && e.y != NUL && Printable(e.path)
    && (e.origin.Some? <==> Moved(e.x, e.y))
    && (e.origin.Some? ==> Printable(e.origin.value))
  }

  function Fields(e: Entry): seq<string> {
    [[e.x, e.y, ' '] + e.path] + (if e.origin.Some? then [e.origin.value] else [])
  }

  function AllFields(entries: seq<Entry>): seq<string> {
    if entries == [] then [] else Fields(entries[0]) + AllFields(entries[1..])
  }

  /** Every field is followed by a NUL. */
  function Print(fields: seq<string>): string {
    if fields == [] then "" else fields[0] + [NUL] + Print(fields[1..])
  }

  function With(changes: Changes, x: char, y: char, path: string): Changes {
    if IsUntracked(x, y) then changes.(untracked := changes.untracked + {path})
    else changes.(staged := if Counts(x) then changes.staged + {path} else changes.staged,
                  unstaged := if Counts(y) then changes.unstaged + {path} else changes.unstaged)
  }

  /** The paths of the entries, by what their status letters say. */
  function Meant(entries: seq<Entry>): Changes {
    if entries == [] then NO_CHANGES
    else
      var (init, e) := (Meant(entries[..|entries| - 1]), entries[|entries| - 1]);
      With(init, e.x, e.y, e.path)
  }

  predicate Staged(e: Entry) { !IsUntracked(e.x, e.y) && Counts(e.x) }

  predicate Unstaged(e: Entry) { !IsUntracked(e.x, e.y) && Counts(e.y) }

  predicate Untracked(e: Entry) { IsUntracked(e.x, e.y) }

  predicate Named(entries: seq<Entry>, path: string, kind: Entry -> bool) {
    exists i :: 0 <= i < |entries| && entries[i].path == path && kind(entries[i])
  }

  lemma NamedStep(entries: seq<Entry>, path: string, kind: Entry -> bool)
    requires entries != []
    ensures var (init, e) := (entries[..|entries| - 1], entries[|entries| - 1]);
            Named(entries, path, kind) <==> Named(init, path, kind) || (e.path == path && kind(e))
  {
    var init := entries[..|entries| - 1];
    if Named(init, path, kind) {
      var i :| 0 <= i < |init| && init[i].path == path && kind(init[i]);
      assert entries[i] == init[i];
    }
  }

  /** A path is staged, unstaged or untracked exactly when an entry with such letters names it. */
  lemma {:induction false} MeantMembers(entries: seq<Entry>, path: string)
    ensures path in Meant(entries).staged <==> Named(entries, path, Staged)
    ensures path in Meant(entries).unstaged <==> Named(entries, path, Unstaged)
    ensures path in Meant(entries).untracked <==> Named(entries, path, Untracked)
  {
    if entries != [] {
      MeantMembers(entries[..|entries| - 1], path);
      NamedStep(entries, path, Staged);
      NamedStep(entries, path, Unstaged);
      NamedStep(entries, path, Untracked);
    }
  }

  // ---------------------------------------------------------------- reading

  /** `raw.split("\0")` */
  function Split(raw: string): (fields: seq<string>)
    ensures |fields| >= 1
  {
    if raw == "" then [""]
    else
      var rest := Split(raw[1..]);
      if raw[0] == NUL then [""] + rest else [[raw[0]] + rest[0]] + rest[1..]
  }

  predicate Shaped(field: string) {
    |field| >= 4 && field[2] == ' '
  }

  /** What the loop makes of the remaining fields. */
  function Read(fields: seq<string>, changes: Changes): Result<Changes, Problem>
    decreases |fields|
  {
    if fields == [] then Success(changes)
    else if fields[0] == "" then Read(fields[1..], changes)
    else if !Shaped(fields[0]) then Failure(InvalidEntry)
    else
      var (x, y, path) := (fields[0][0], fields[0][1], fields[0][3..]);
      var more := With(changes, x, y, path);
      if IsUntracked(x, y) || !Moved(x, y) then Read(fields[1..], more)
      else if |fields| == 1 || fields[1] == "" then Failure(IncompleteRename)
      else Read(fields[2..], more)
  }

  /** `boundedPaths` */
  method BoundedPaths(values: set<string>, limit: nat) returns (paths: seq<string>, truncated: bool)
    ensures Ascending(paths) && |paths| == if |values| < limit then |values| else limit
    ensures forall p :: p in paths ==> p in values
    ensures forall p, q :: p in paths && q in values && q !in paths ==> Less(p, q)
    ensures truncated <==> |values| > limit
  {
    var sorted: seq<string> := [];
    var left := values;
    while left != {}
      invariant left <= values && Ascending(sorted)
      invariant forall p :: p in sorted <==> p in values && p !in left
      decreases |left|
    {
      var p :| p in left;
      InsertSorted(p, sorted);
      sorted := Insert(p, sorted);
      left := left - {p};
    }
    AscendingSize(sorted, values);
    truncated := |sorted| > limit;
    paths := if truncated then sorted[..limit] else sorted;
    CutIsLeast(sorted, |paths|);
  }

  /** An ascending sequence has each element once. */
  lemma {:induction false} AscendingSize(sorted: seq<string>, values: set<string>)
    requires Ascending(sorted) && forall p :: p in sorted <==> p in values
    ensures |sorted| == |values|
  {
    if sorted == [] {
      assert values == {};
    } else {
      var (init, last) := (sorted[..|sorted| - 1], sorted[|sorted| - 1]);
      assert last !in init by {
        LessTotal(last, last);
      }
      assert sorted == init + [last];
      AscendingSize(init, values - {last});
    }
  }

  lemma CutIsLeast(sorted: seq<string>, n: nat)
    requires Ascending(sorted) && n <= |sorted|
    ensures forall p, q :: p in sorted[..n] && q in sorted && q !in sorted[..n] ==> Less(p, q)
  {
  }

  predicate Bounded(paths: seq<string>, values: set<string>, limit: nat) {
    && Ascending(paths) && |paths| == (if |values| < limit then |values| else limit)
    && (forall p :: p in paths ==> p in values)
    && (forall p, q :: p in paths && q in values && q !in paths ==> Less(p, q))
  }

  /** What the result says about the changes: each list cut to its first `limit` paths in order. */
  predicate Reports(status: Status, changes: Changes, limit: nat) {
    && Bounded(status.staged, changes.staged, limit)
    && Bounded(status.unstaged, changes.unstaged, limit)
    && Bounded(status.untracked, changes.untracked, limit)
    && (status.truncated <==> |changes.staged| > limit || |changes.unstaged| > limit || |changes.untracked| > limit)
  }

  method ParsePorcelainStatus(raw: string, limit: nat) returns (r: Result<Status, Problem>)
    ensures match Read(Split(raw), NO_CHANGES)
            case Success(changes) => r.Success? && Reports(r.value, changes, limit)
            case Failure(problem) => r == Failure(problem)
  {
    var staged, unstaged, untracked := {}, {}, {};
    var entries := Split(raw);
    var index := 0;
    while index < |entries|
      invariant 0 <= index <= |entries|
      invariant Read(entries[index..], Changes(staged, unstaged, untracked)) == Read(entries, NO_CHANGES)
    {
      var entry := entries[index];
      assert entries[index..][1..] == entries[index + 1..];
      if entry == "" {
        index := index + 1;
        continue;
      }
      if |entry| < 4 || entry[2] != ' ' {
        return Failure(InvalidEntry);
      }
      var x, y, pathname := entry[0], entry[1], entry[3..];
      if x == '?' && y == '?' {
        untracked := untracked + {pathname};
        index := index + 1;
        continue;
      }
      if x != ' ' && x != '!' && x != '?' {
        staged := staged + {pathname};
      }
      if y != ' ' && y != '!' && y != '?' {
        unstaged := unstaged + {pathname};
      }
      if x == 'R' || x == 'C' || y == 'R' || y == 'C' {
        index := index + 1;
        if index >= |entries| || entries[index] == "" {
          return Failure(IncompleteRename);
        }
        assert entries[index - 1..][2..] == entries[index + 1..];
      }
      index := index + 1;
    }
    var stagedPaths, stagedCut := BoundedPaths(staged, limit);
    var unstagedPaths, unstagedCut := BoundedPaths(unstaged, limit);
    var untrackedPaths, untrackedCut := BoundedPaths(untracked, limit);
    r := Success(Status(stagedPaths, unstagedPaths, untrackedPaths, stagedCut || unstagedCut || untrackedCut));
  }

  // ---------------------------------------------------------------- reading back what was printed

  lemma {:induction false} SplitRun(field: string, rest: string)
    requires NUL !in field
    ensures Split(field + [NUL] + rest) == [field] + Split(rest)
  {
    var raw := field + [NUL] + rest;
    if field == "" {
      assert raw[1..] == rest;
    } else {
      assert raw[1..] == field[1..] + [NUL] + rest;
      SplitRun(field[1..], rest);
      assert [field[0]] + field[1..] == field;
    }
  }

  /** Splitting what was printed gives the fields back, and the empty rest after the last NUL. */
  lemma {:induction false} SplitPrinted(fields: seq<string>)
    requires forall i :: 0 <= i < |fields| ==> NUL !in fields[i]
    ensures Split(Print(fields)) == fields + [""]
  {
    if fields != [] {
      SplitPrinted(fields[1..]);
      SplitRun(fields[0], Print(fields[1..]));
      assert [fields[0]] + (fields[1..] + [""]) == fields + [""];
    }
  }

  lemma {:induction false} FieldsPrintable(entries: seq<Entry>)
    requires forall i :: 0 <= i < |entries| ==> WellFormed(entries[i])
    ensures forall i :: 0 <= i < |AllFields(entries)| ==> Printable(AllFields(entries)[i])
  {
    if entries != [] {
      FieldsPrintable(entries[1..]);
      EntryPrintable(entries[0]);
    }
  }

  lemma EntryPrintable(e: Entry)
    requires WellFormed(e)
    ensures forall i :: 0 <= i < |Fields(e)| ==> Printable(Fields(e)[i])
    ensures var field := Fields(e)[0]; Shaped(field) && field[0] == e.x && field[1] == e.y && field[3..] == e.path
  {
    var field := [e.x, e.y, ' '] + e.path;
    assert Fields(e)[0] == field;
    assert field[3..] == e.path;
    assert NUL !in field;
  }

  lemma Cons(before: seq<Entry>, e: Entry, rest: seq<Entry>)
    ensures AllFields([e] + rest) == Fields(e) + AllFields(rest)
    ensures before + ([e] + rest) == before + [e] + rest
  {
    assert ([e] + rest)[1..] == rest;
  }

  lemma Regroup(a: seq<string>, b: seq<string>, c: seq<string>)
    ensures a + b + c == a + (b + c)
  {
  }

  /** Reading the fields of further entries goes on from what was read before. */
  lemma {:induction false} ReadsEntries(before: seq<Entry>, entries: seq<Entry>, end: seq<string>)
    requires end == [""] && forall i :: 0 <= i < |entries| ==> WellFormed(entries[i])
    ensures Read(AllFields(entries) + end, Meant(before)) == Success(Meant(before + entries))
    decreases |entries|
  {
    if entries == [] {
      ReadsNothing(Meant(before));
      assert AllFields(entries) + end == end && before + entries == before;
    } else {
      var (e, rest) := (entries[0], entries[1..]);
      assert entries == [e] + rest;
      Cons(before, e, rest);
      Regroup(Fields(e), AllFields(rest), end);
      ReadsOne(e, AllFields(rest) + end, Meant(before));
      MeantSnoc(before, e);
      ReadsEntries(before + [e], rest, end);
    }
  }

  lemma ReadsNothing(changes: Changes)
    ensures Read([""], changes) == Success(changes)
  {
    var none: seq<string> := [];
    assert [""][1..] == none;
    assert Read(none, changes) == Success(changes);
  }

  lemma ReadsOne(e: Entry, rest: seq<string>, changes: Changes)
    requires WellFormed(e)
    ensures Read(Fields(e) + rest, changes) == Read(rest, With(changes, e.x, e.y, e.path))
  {
    EntryPrintable(e);
    var fields := Fields(e) + rest;
    assert fields[|Fields(e)|..] == rest;
    assert e.origin.Some? ==> fields[1] == e.origin.value;
  }

  lemma MeantSnoc(before: seq<Entry>, e: Entry)
    ensures Meant(before + [e]) == With(Meant(before), e.x, e.y, e.path)
  {
    assert (before + [e])[..|before|] == before;
  }

  /** Whatever entries Git prints, reading gives exactly their staged, unstaged and untracked paths. */
  lemma ReadsWhatGitPrints(entries: seq<Entry>, raw: string)
    requires forall i :: 0 <= i < |entries| ==> WellFormed(entries[i])
    requires raw == Print(AllFields(entries))
    ensures Read(Split(raw), NO_CHANGES) == Success(Meant(entries))
  {
    FieldsPrintable(entries);
    SplitPrinted(AllFields(entries));
    ReadsEntries([], entries, [""]);
    assert [] + entries == entries;
  }

  function NonEmpty(fields: seq<string>): seq<string> {
    if fields == [] then []
    else if fields[0] == "" then NonEmpty(fields[1..])
    else [fields[0]] + NonEmpty(fields[1..])
  }

  /** Whatever is read at all is what some entries say whose fields are the non-empty ones given. */
  lemma {:induction false} ReadsOnlyEntries(before: seq<Entry>, fields: seq<string>) returns (entries: seq<Entry>)
    requires Read(fields, Meant(before)).Success?
    requires forall i :: 0 <= i < |fields| ==> NUL !in fields[i]
    ensures forall i :: 0 <= i < |entries| ==> WellFormed(entries[i])
    ensures AllFields(entries) == NonEmpty(fields)
    ensures Read(fields, Meant(before)).value == Meant(before + entries)
    decreases |fields|
  {
    entries := [];
    if fields == [] {
      assert before + entries == before;
    } else if fields[0] == "" {
      entries := ReadsOnlyEntries(before, fields[1..]);
    } else {
      var e := FirstEntry(fields, Meant(before));
      var rest := fields[|Fields(e)|..];
      MeantSnoc(before, e);
      var more := ReadsOnlyEntries(before + [e], rest);
      entries := [e] + more;
      Cons(before, e, more);
    }
  }

  lemma FirstEntry(fields: seq<string>, changes: Changes) returns (e: Entry)
    requires fields != [] && fields[0] != "" && Read(fields, changes).Success?
    requires forall i :: 0 <= i < |fields| ==> NUL !in fields[i]
    ensures WellFormed(e) && |Fields(e)| <= |fields|
    ensures Read(fields, changes) == Read(fields[|Fields(e)|..], With(changes, e.x, e.y, e.path))
    ensures NonEmpty(fields) == Fields(e) + NonEmpty(fields[|Fields(e)|..])
  {
    var field := fields[0];
    var (x, y, path) := (field[0], field[1], field[3..]);
    assert [x, y, ' '] + path == field;
    if Moved(x, y) {
      e := Entry(x, y, path, Some(fields[1]));
      NonEmptyTwo(fields);
    } else {
      e := Entry(x, y, path, None);
    }
  }

  lemma NonEmptyTwo(fields: seq<string>)
    requires |fields| >= 2 && fields[0] != "" && fields[1] != ""
    ensures NonEmpty(fields) == [fields[0]] + [fields[1]] + NonEmpty(fields[2..])
  {
    assert fields[1..][1..] == fields[2..];
    assert NonEmpty(fields[1..]) == [fields[1]] + NonEmpty(fields[2..]);
    Regroup([fields[0]], [fields[1]], NonEmpty(fields[2..]));
  }

  lemma {:induction false} SplitClean(raw: string)
    ensures forall i :: 0 <= i < |Split(raw)| ==> NUL !in Split(raw)[i]
  {
    if raw != "" {
      SplitClean(raw[1..]);
    }
  }

  /** Nothing else is read: output that is accepted says what some list of entries says. */
  lemma ReadsNothingElse(raw: string) returns (entries: seq<Entry>)
    requires Read(Split(raw), NO_CHANGES).Success?
    ensures forall i :: 0 <= i < |entries| ==> WellFormed(entries[i])
    ensures AllFields(entries) == NonEmpty(Split(raw))
    ensures Read(Split(raw), NO_CHANGES) == Success(Meant(entries))
  {
    SplitClean(raw);
    entries := ReadsOnlyEntries([], Split(raw));
    assert [] + entries == entries;
  }
}
