/**
 * How far the compiled glob keeps to its expansions: it never accepts more,
 * and less only where multiplying out the braces brings two stars together.
 */
module GlobAlternation {
  import opened GlobExpansion
  import opened GlobMatch
  import opened GlobRegex
  import opened GlobSyntax
  import opened RegExp
  import opened Wrappers

  /** In some expansion that describes anything two single stars make up a whole segment. */
  ghost predicate SplitsStars(glob: string)
    requires ParseGlob(glob).Some?
  {
    exists e <- Expansions(ParseGlob(glob).value) :: Splits(e, true) && Peopled(e)
  }

  /** Every class has a member. */
  ghost predicate Peopled(e: seq<Token>) {
    forall t <- e :: Inhabited(t)
  }

  predicate IsDoubleStar(t: Token) {
    t.Directories? || t.Everything?
  }

  // ---------------------------------------------------------------- fused and unfused

  lemma {:induction false} FuseSame(e: seq<Token>, segmentStart: bool)
    requires !Splits(e, segmentStart)
    ensures Fuse(e, segmentStart) == e
  {
    if e != [] {
      FuseSame(e[1..], EndsSegment(e[0]));
    }
  }

  lemma {:induction false} FuseStars(e: seq<Token>, segmentStart: bool)
    requires Splits(e, segmentStart)
    ensures exists t <- Fuse(e, segmentStart) :: IsDoubleStar(t)
  {
    if StarsMeet(e, segmentStart) {
      assert IsDoubleStar(Fuse(e, segmentStart)[0]);
    } else {
      FuseStars(e[1..], EndsSegment(e[0]));
      var t :| t in Fuse(e[1..], EndsSegment(e[0])) && IsDoubleStar(t);
      assert t in Fuse(e, segmentStart);
    }
  }

  lemma TakesOne(t: Token, s: string)
    ensures Takes([t], s, true) <==> TokenAccepts(t, s, true)
  {
    assert [t] == [t] + [];
    TakesFirst(t, [], s, true);
    assert s[..|s|] == s && s[|s|..] == "";
    assert Takes([], "", true);
    forall k | 0 <= k <= |s| && Takes([], s[k..], true)
      ensures k == |s|
    {
    }
  }

  /** Two stars and a slash only take text that ends in a slash. */
  lemma DirectoriesTake(e: seq<Token>, rest: seq<Token>, s: string) returns (k: nat)
    requires |e| > 2 && e[2] == Literal('/') && Takes(e, s, true)
    ensures k <= |s| && TokenAccepts(Directories, s[..k], true) && Takes(e[3..], s[k..], true)
  {
    assert e == e[..3] + e[3..] && e[..3] == e[..2] + [Literal('/')];
    k := CutFound(e[..3], e[3..], s, true);
    var m := CutFound(e[..2], [Literal('/')], s[..k], true);
    TakesOne(Literal('/'), s[..k][m..]);
    assert s[..k][|s[..k]| - 1] == s[..k][m..][|s[..k][m..]| - 1];
  }

  lemma FirstTaken(t: Token, e: seq<Token>, s: string) returns (k: nat)
    requires Takes([t] + e, s, true)
    ensures k <= |s| && TokenAccepts(t, s[..k], true) && Takes(e, s[k..], true)
  {
    TakesFirst(t, e, s, true);
    k :| 0 <= k <= |s| && TokenAccepts(t, s[..k], true) && Takes(e, s[k..], true);
  }

  lemma TakesAt(t: Token, e: seq<Token>, s: string, k: nat)
    requires k <= |s| && TokenAccepts(t, s[..k], true) && Takes(e, s[k..], true)
    ensures Takes([t] + e, s, true)
  {
    TakesFirst(t, e, s, true);
  }

  /** Fusing never loses a path. */
  lemma {:induction false} FuseTakes(e: seq<Token>, segmentStart: bool, s: string)
    requires Takes(e, s, true)
    ensures Takes(Fuse(e, segmentStart), s, true)
    decreases |e|
  {
    if e == [] {
    } else if StarsMeet(e, segmentStart) {
      if |e| == 2 {
        TakesOne(Everything, s);
      } else {
        var k := DirectoriesTake(e, e[3..], s);
        FuseTakes(e[3..], true, s[k..]);
        TakesAt(Directories, Fuse(e[3..], true), s, k);
      }
    } else {
      assert e == [e[0]] + e[1..];
      var k := FirstTaken(e[0], e[1..], s);
      FuseTakes(e[1..], EndsSegment(e[0]), s[k..]);
      TakesAt(e[0], Fuse(e[1..], EndsSegment(e[0])), s, k);
    }
  }

  ghost predicate FusedTakes(glob: string, e: seq<Token>, path: string) {
    Takes(Fuse(e, true), Target(glob, path), true)
  }

  /** What the expansions promise, by their tokens. */
  lemma PromisesMean(glob: string, path: string)
    requires ParseGlob(glob).Some?
    ensures Promises(glob, path) <==> exists e <- Expansions(ParseGlob(glob).value) :: FusedTakes(glob, e, path)
  {
    var es := Expansions(ParseGlob(glob).value);
    if text :| text in Expanded(glob) && Reads(text, Target(glob, path)) {
      var e :| e in es && text == Text(e);
      ExpansionParses(glob, e);
      assert FusedTakes(glob, e, path);
    }
    if e :| e in es && FusedTakes(glob, e, path) {
      ExpansionParses(glob, e);
      assert Text(e) in Expanded(glob) && Reads(Text(e), Target(glob, path));
    }
  }

  // ---------------------------------------------------------------- globs without a slash

  predicate Within(e: seq<Token>, ts: seq<Token>) {
    forall t <- e :: t in ts
  }

  lemma {:induction false} RestWithin(ts: seq<Token>)
    requires ParseItems(ts).Some?
    ensures Within(ParseItems(ts).value.1, ts)
    decreases |ts|, 1
  {
    if ts != [] && !ts[0].Comma? && !ts[0].Close? {
      if ts[0].Open? {
        GroupRestWithin(ts[1..]);
        RestWithin(ParseGroup(ts[1..]).value.1);
      } else {
        RestWithin(ts[1..]);
      }
    }
  }

  lemma {:induction false} GroupRestWithin(ts: seq<Token>)
    requires ParseGroup(ts).Some?
    ensures Within(ParseGroup(ts).value.1, ts)
    decreases |ts|, 2
  {
    RestWithin(ts);
    var rest := ParseItems(ts).value.1;
    if !rest[0].Close? {
      GroupRestWithin(rest[1..]);
    }
  }

  /** An expansion is made of tokens of the glob, and of no more than it has. */
  lemma {:induction false} ItemsWithin(ts: seq<Token>, e: seq<Token>)
    requires ParseItems(ts).Some? && e in Expansions(ParseItems(ts).value.0)
    ensures Within(e, ts) && |e| + |ParseItems(ts).value.1| <= |ts|
    decreases |ts|, 1
  {
    if ts != [] && !ts[0].Comma? && !ts[0].Close? {
      if ts[0].Open? {
        var (alternatives, middle) := ParseGroup(ts[1..]).value;
        var next := ParseItems(middle).value.0;
        var a, b :| a in ExpansionsOfAny(alternatives) && b in Expansions(next) && e == a + b;
        GroupRestWithin(ts[1..]);
        AlternativesWithin(ts[1..], a);
        ItemsWithin(middle, b);
      } else {
        var rest :| rest in Expansions(ParseItems(ts[1..]).value.0) && e == [ts[0]] + rest;
        ItemsWithin(ts[1..], rest);
      }
    }
  }

  lemma {:induction false} AlternativesWithin(ts: seq<Token>, e: seq<Token>)
    requires ParseGroup(ts).Some? && e in ExpansionsOfAny(ParseGroup(ts).value.0)
    ensures Within(e, ts) && |e| + |ParseGroup(ts).value.1| <= |ts|
    decreases |ts|, 2
  {
    var (g, rest) := ParseItems(ts).value;
    RestWithin(ts);
    if e in Expansions(g) {
      ItemsWithin(ts, e);
    }
    if !rest[0].Close? && e in ExpansionsOfAny(ParseGroup(rest[1..]).value.0) {
      AlternativesWithin(rest[1..], e);
    }
  }

  lemma ExpansionWithin(glob: string, e: seq<Token>)
    requires ParseGlob(glob).Some? && e in Expansions(ParseGlob(glob).value)
    ensures Within(e, Tokens(glob, 0, 0)) && |e| <= |Tokens(glob, 0, 0)|
  {
    ItemsWithin(Tokens(glob, 0, 0), e);
  }

  predicate NoSegmentEnds(ts: seq<Token>) {
    forall t <- ts :: !EndsSegment(t)
  }

  lemma SegmentEndText(t: Token)
    ensures EndsSegment(t) ==> '/' in TokenText(t)
  {
    if t.Directories? {
      assert TokenText(t)[2] == '/';
    }
  }

  lemma {:induction false} SlashInText(ts: seq<Token>)
    requires '/' !in Text(ts)
    ensures NoSegmentEnds(ts)
  {
    if ts != [] {
      SlashInText(ts[1..]);
      SegmentEndText(ts[0]);
    }
  }

  lemma {:induction false} FuseUnsegmented(e: seq<Token>, segmentStart: bool)
    requires NoSegmentEnds(e)
    ensures Fuse(e, segmentStart) == if StarsMeet(e, segmentStart) then [Everything] else e
    ensures StarsMeet(e, segmentStart) ==> e == [AnyInSegment] + [AnyInSegment]
  {
    if |e| > 2 {
      assert !EndsSegment(e[2]);
    }
    if e != [] && !StarsMeet(e, segmentStart) {
      FuseUnsegmented(e[1..], EndsSegment(e[0]));
    }
  }

  /** On a file name two stars take as much as a final `**`. */
  lemma TwoStarsTake(e: seq<Token>, s: string)
    requires NoSegmentEnds(e) && '/' !in s && Takes(Fuse(e, true), s, true)
    ensures Takes(e, s, true)
  {
    FuseUnsegmented(e, true);
    if StarsMeet(e, true) {
      TakesOne(AnyInSegment, "");
      assert s[..|s|] == s && s[|s|..] == "";
      TakesFirst(AnyInSegment, [AnyInSegment], s, true);
    }
  }

  lemma {:induction false} LastIndexOfIsLast(text: string, c: char)
    ensures forall k :: LastIndexOf(text, c) < k < |text| ==> text[k] != c
    ensures LastIndexOf(text, c) >= 0 ==> text[LastIndexOf(text, c)] == c
    decreases |text|
  {
    if text != "" && text[|text| - 1] != c {
      LastIndexOfIsLast(text[..|text| - 1], c);
    }
  }

  lemma BasenameHasNoSlash(path: string)
    ensures '/' !in Basename(path)
  {
    LastIndexOfIsLast(path, '/');
  }

  // ---------------------------------------------------------------- the law

  lemma {:induction false} FuseKeepsClasses(e: seq<Token>, segmentStart: bool)
    ensures forall t <- e :: t.Bracket? ==> t in Fuse(e, segmentStart)
    decreases |e|
  {
    if e != [] {
      if !StarsMeet(e, segmentStart) {
        assert e == [e[0]] + e[1..];
        FuseKeepsClasses(e[1..], EndsSegment(e[0]));
      } else if |e| > 2 {
        assert e == [e[0], e[1], e[2]] + e[3..];
        FuseKeepsClasses(e[3..], true);
      }
    }
  }

  lemma {:induction false} TakenIsPeopled(f: seq<Token>, s: string)
    requires Takes(f, s, true)
    ensures Peopled(f)
  {
    if f != [] {
      assert f == [f[0]] + f[1..];
      var k := FirstTaken(f[0], f[1..], s);
      TakenIsPeopled(f[1..], s[k..]);
    }
  }

  /** Whatever is compiled accepts no path that no expansion promises. */
  lemma NeverTooMuch(glob: string, path: string, everything: bool)
    requires ParseGlob(glob).Some? && Describes(glob, path, everything)
    ensures Promises(glob, path)
  {
    var (g, s) := (ParseGlob(glob).value, Target(glob, path));
    OneLineSuffices(g, s);
    ExpansionsUnite(g, s, true);
    var e :| e in Expansions(g) && Takes(e, s, true);
    FuseTakes(e, true, s);
    PromisesMean(glob, path);
    assert FusedTakes(glob, e, path);
  }

  /** A glob is the union of its expansions when none splits, and always when it describes file names. */
  lemma ExpansionLaw(glob: string, path: string)
    requires ParseGlob(glob).Some? && ('/' !in glob || !SplitsStars(glob))
    ensures Promises(glob, path) <==> Describes(glob, path, true)
  {
    var (g, s) := (ParseGlob(glob).value, Target(glob, path));
    PromisesMean(glob, path);
    ExpansionsUnite(g, s, true);
    if e :| e in Expansions(g) && FusedTakes(glob, e, path) {
      if '/' in glob {
        TakenIsPeopled(Fuse(e, true), s);
        FuseKeepsClasses(e, true);
        assert Peopled(e);
        FuseSame(e, true);
      } else {
        NamesTake(glob, e, path);
      }
      assert Takes(e, s, true);
    }
    if Describes(glob, path, true) {
      NeverTooMuch(glob, path, true);
    }
  }

  lemma NamesTake(glob: string, e: seq<Token>, path: string)
    requires ParseGlob(glob).Some? && '/' !in glob
    requires e in Expansions(ParseGlob(glob).value) && FusedTakes(glob, e, path)
    ensures Takes(e, Target(glob, path), true)
  {
    TextRestores(glob, 0, 0);
    SlashInText(Tokens(glob, 0, 0));
    ExpansionWithin(glob, e);
    BasenameHasNoSlash(path);
    TwoStarsTake(e, Basename(path));
  }

  /** So a glob that does not end in `**` and splits no stars is compiled to what its expansions promise. */
  lemma CompiledAsPromised(glob: string, path: string)
    requires ParseGlob(glob).Some? && !EndsInStars(glob) && ('/' !in glob || !SplitsStars(glob))
    ensures Promises(glob, path) <==> Describes(glob, path, false)
  {
    ExpansionLaw(glob, path);
    AgreesWithoutFinalStars(glob, path);
  }

  // ---------------------------------------------------------------- where the law fails

  /** The translator recognises no `**`. */
  predicate Ordinary(glob: string) {
    OrdinaryTokens(Tokens(glob, 0, 0))
  }

  predicate OrdinaryTokens(ts: seq<Token>) {
    forall t <- ts :: !IsDoubleStar(t)
  }

  function Slashes(s: string): nat {
    if s == "" then 0 else (if s[0] == '/' then 1 else 0) + Slashes(s[1..])
  }

  lemma {:induction false} SlashesConcat(a: string, b: string)
    ensures Slashes(a + b) == Slashes(a) + Slashes(b)
  {
    if a == "" {
      assert a + b == b;
    } else {
      assert (a + b)[1..] == a[1..] + b;
      SlashesConcat(a[1..], b);
    }
  }

  lemma {:induction false} NoSlashes(s: string)
    requires '/' !in s
    ensures Slashes(s) == 0
  {
    if s != "" {
      NoSlashes(s[1..]);
    }
  }

  lemma {:induction false} RepeatSlashes(n: nat)
    ensures Slashes(Repeat('/', n)) == n
  {
    if n > 0 {
      assert Repeat('/', n)[1..] == Repeat('/', n - 1);
      RepeatSlashes(n - 1);
    }
  }

  lemma SlashesCut(s: string, k: nat)
    requires k <= |s|
    ensures Slashes(s) == Slashes(s[..k]) + Slashes(s[k..])
  {
    assert s == s[..k] + s[k..];
    SlashesConcat(s[..k], s[k..]);
  }

  /** Without a `**` every token takes one slash at most. */
  lemma {:induction false} SlashesBounded(e: seq<Token>, s: string)
    requires OrdinaryTokens(e) && Takes(e, s, true)
    ensures Slashes(s) <= |e|
  {
    if e != [] {
      assert e == [e[0]] + e[1..];
      var k := FirstTaken(e[0], e[1..], s);
      SlashesBounded(e[1..], s[k..]);
      OneSlash(e[0], s[..k]);
      SlashesCut(s, k);
    }
  }

  lemma OneSlash(t: Token, s: string)
    requires !IsDoubleStar(t) && TokenAccepts(t, s, true)
    ensures Slashes(s) <= 1
  {
    if t.AnyInSegment? {
      NoSlashes(s);
    } else {
      assert |s| == 1 && s[1..] == "";
    }
  }

  ghost predicate Samplable(t: Token) {
    ItemToken(t) && Inhabited(t)
  }

  lemma {:induction false} SampleTaken(f: seq<Token>, n: nat)
    requires forall t <- f :: Samplable(t)
    ensures WellFormed(FromTokens(f)) && AllInhabited(FromTokens(f))
    ensures Takes(f, Sample(FromTokens(f), n), true)
  {
    if f != [] {
      assert Samplable(f[0]);
      SampleTaken(f[1..], n);
    }
    SampleAccepted(FromTokens(f), n);
  }

  lemma {:induction false} SampleSlashes(f: seq<Token>, n: nat)
    requires exists t <- f :: IsDoubleStar(t)
    ensures Slashes(Sample(FromTokens(f), n)) >= n
  {
    var rest := Sample(FromTokens(f[1..]), n);
    SlashesConcat(TokenSample(f[0], n), rest);
    if IsDoubleStar(f[0]) {
      RepeatSlashes(n);
    } else {
      SampleSlashes(f[1..], n);
    }
  }

  /**
   * A glob with a slash that splits stars and has no recognised `**` misses a
   * path that an expansion promises: one with enough directories.
   */
  lemma SplitsMiss(glob: string) returns (path: string)
    requires ParseGlob(glob).Some? && Ordinary(glob) && '/' in glob && SplitsStars(glob)
    ensures Promises(glob, path) && !Describes(glob, path, true)
  {
    var (g, ts) := (ParseGlob(glob).value, Tokens(glob, 0, 0));
    var e :| e in Expansions(g) && Splits(e, true) && Peopled(e);
    var f := Fuse(e, true);
    path := Sample(FromTokens(f), |ts| + 1);
    FusedSamplable(glob, e);
    SampleTaken(f, |ts| + 1);
    PromisesMean(glob, path);
    assert FusedTakes(glob, e, path);
    FuseStars(e, true);
    SampleSlashes(f, |ts| + 1);
    ExpansionsUnite(g, path, true);
    forall other | other in Expansions(g)
      ensures !Takes(other, path, true)
    {
      ExpansionWithin(glob, other);
      if Takes(other, path, true) {
        SlashesBounded(other, path);
      }
    }
  }

  lemma FusedSamplable(glob: string, e: seq<Token>)
    requires ParseGlob(glob).Some? && e in Expansions(ParseGlob(glob).value) && Peopled(e)
    ensures forall t <- Fuse(e, true) :: Samplable(t)
  {
    ExpansionTidy(glob, e);
    FuseTokens(e, true);
  }

  /**
   * Without a recognised `**` a glob is compiled to what its expansions promise
   * exactly when it has no slash or splits no stars.
   */
  lemma KeptIffNoSplit(glob: string)
    requires ParseGlob(glob).Some? && Ordinary(glob)
    ensures (forall path :: Promises(glob, path) <==> Describes(glob, path, false))
            <==> '/' !in glob || !SplitsStars(glob)
  {
    OrdinaryEnd(glob);
    if '/' in glob && SplitsStars(glob) {
      var path := SplitsMiss(glob);
      AgreesWithoutFinalStars(glob, path);
    } else {
      forall path
        ensures Promises(glob, path) <==> Describes(glob, path, false)
      {
        CompiledAsPromised(glob, path);
      }
    }
  }

  lemma OrdinaryEnd(glob: string)
    requires Ordinary(glob)
    ensures !EndsInStars(glob)
  {
    EverythingIsLast(glob, 0, 0);
    var ts := Tokens(glob, 0, 0);
    if ts != [] {
      assert ts[|ts| - 1] in ts;
    }
  }

  // ---------------------------------------------------------------- two globs

  lemma TakesLiteral(c: char, e: seq<Token>, s: string)
    ensures Takes([Literal(c)] + e, s, true) <==> s != "" && s[0] == c && Takes(e, s[1..], true)
  {
    TakesFirst(Literal(c), e, s, true);
    if s != "" && s[0] == c {
      assert s[..1] == [c];
    }
    forall k | 0 <= k <= |s| && TokenAccepts(Literal(c), s[..k], true)
      ensures k == 1 && s[0] == c
    {
      assert s[..k][0] == s[0];
    }
  }

  lemma TwoStarsMiss(s: string)
    ensures Takes([AnyInSegment] + [AnyInSegment], s, true) <==> '/' !in s
  {
    TakesOne(AnyInSegment, "");
    TakesFirst(AnyInSegment, [AnyInSegment], s, true);
    assert s[..|s|] == s && s[|s|..] == "";
    if Takes([AnyInSegment] + [AnyInSegment], s, true) {
      var k := CutFound([AnyInSegment], [AnyInSegment], s, true);
      TakesOne(AnyInSegment, s[..k]);
      TakesOne(AnyInSegment, s[k..]);
      assert s == s[..k] + s[k..];
    }
  }

  lemma OneExpansion(e: seq<Token>)
    ensures Expansions(FromTokens(e)) == {e}
  {
    if e != [] {
      OneExpansion(e[1..]);
      assert e == [e[0]] + e[1..];
    }
  }

  lemma SplitTokens(glob: string)
    requires glob == "{a/**,b}"
    ensures var stars := [Literal('a'), Literal('/'), AnyInSegment, AnyInSegment];
            Tokens(glob, 0, 0) == [Open] + (stars + [Comma, Literal('b'), Close])
  {
    assert ReadToken(glob, 3, 1) == (AnyInSegment, 1);
    assert ReadToken(glob, 4, 1) == (AnyInSegment, 1);
    assert Tokens(glob, 7, 1) == [Close];
    assert Tokens(glob, 5, 1) == [Comma, Literal('b'), Close];
    assert Tokens(glob, 3, 1) == [AnyInSegment, AnyInSegment, Comma, Literal('b'), Close];
    assert Tokens(glob, 1, 1) == [Literal('a'), Literal('/')] + Tokens(glob, 3, 1);
  }

  /** A straight run of items in front of a comma, a brace or the end is one alternative. */
  lemma {:induction false} RunParses(e: seq<Token>, rest: seq<Token>)
    requires NoBraces(e) && (rest == [] || rest[0].Comma? || rest[0].Close?)
    ensures ParseItems(e + rest) == Some((FromTokens(e), rest))
  {
    if e == [] {
      assert e + rest == rest;
    } else {
      assert (e + rest)[1..] == e[1..] + rest;
      RunParses(e[1..], rest);
    }
  }

  /** A group of two straight alternatives. */
  lemma PairParses(a: seq<Token>, b: seq<Token>)
    requires NoBraces(a) && NoBraces(b)
    ensures ParseItems([Open] + (a + ([Comma] + (b + [Close]))))
            == Some((Pair(a, b), []))
  {
    var (second, all) := (b + [Close], a + ([Comma] + (b + [Close])));
    RunParses(b, [Close]);
    assert [Close][1..] == [];
    assert ParseGroup(second) == Some((Last(FromTokens(b)), []));
    RunParses(a, [Comma] + second);
    assert ([Comma] + second)[1..] == second;
    assert ParseGroup(all) == Some((More(FromTokens(a), Last(FromTokens(b))), []));
    assert ([Open] + all)[1..] == all;
  }

  function Pair(a: seq<Token>, b: seq<Token>): Glob {
    Group(More(FromTokens(a), Last(FromTokens(b))), End)
  }

  lemma PairExpansions(a: seq<Token>, b: seq<Token>)
    ensures Expansions(Pair(a, b)) == {a, b}
  {
    OneExpansion(a);
    OneExpansion(b);
    PairUnion(FromTokens(a), FromTokens(b), a, b);
    GroupAlone(More(FromTokens(a), Last(FromTokens(b))));
  }

  lemma PairUnion(first: Glob, second: Glob, a: seq<Token>, b: seq<Token>)
    requires Expansions(first) == {a} && Expansions(second) == {b}
    ensures ExpansionsOfAny(More(first, Last(second))) == {a, b}
  {
    assert ExpansionsOfAny(Last(second)) == {b};
  }

  lemma GroupAlone(alternatives: Alternatives)
    ensures Expansions(Group(alternatives, End)) == ExpansionsOfAny(alternatives)
  {
    var (g, es) := (Group(alternatives, End), ExpansionsOfAny(alternatives));
    forall e
      ensures e in Expansions(g) <==> e in es
    {
      if e in Expansions(g) {
        var x, y :| x in es && y in Expansions(End) && e == x + y;
        assert x + y == x;
      }
      assert [] in Expansions(End) && e + [] == e;
    }
  }

  lemma StarsBehind(e: seq<Token>, path: string)
    requires e == [Literal('a')] + ([Literal('/')] + ([AnyInSegment] + [AnyInSegment])) && path == "a/x/y"
    ensures !Takes(e, path, true) && Takes(Fuse(e, true), path, true)
  {
    var stars := [AnyInSegment] + [AnyInSegment];
    TakesLiteral('a', [Literal('/')] + stars, path);
    TakesLiteral('/', stars, path[1..]);
    TwoStarsMiss(path[1..][1..]);
    assert path[1..][1..][1] == '/';
    assert e[1..] == [Literal('/')] + stars && e[2..] == stars && e[1..][1..] == stars;
    assert Fuse(stars, true) == [Everything];
    assert Fuse([Literal('/')] + stars, false) == [Literal('/')] + [Everything];
    assert Fuse(e, true) == [Literal('a')] + ([Literal('/')] + [Everything]);
    TakesLiteral('a', [Literal('/')] + [Everything], path);
    TakesLiteral('/', [Everything], path[1..]);
    TakesOne(Everything, path[1..][1..]);
  }

  lemma NoneTakes(g: Glob, a: seq<Token>, b: seq<Token>, path: string)
    requires Expansions(g) == {a, b} && !Takes(a, path, true) && !Takes(b, path, true)
    ensures !Accepts(g, path, false)
  {
    ExpansionsUnite(g, path, true);
    OneLineSuffices(g, path);
  }

  lemma OtherMisses(e: seq<Token>, path: string)
    requires e == [Literal('b')] && path == "a/x/y"
    ensures !Takes(e, path, true)
  {
    assert e == [Literal('b')] + [];
    TakesLiteral('b', [], path);
  }

  // `{a/**,b}` does not match `a/x/y`, though its expansion `a/**` does.
  lemma BracesCutStars(glob: string, path: string)
    requires glob == "{a/**,b}" && path == "a/x/y"
    ensures ParseGlob(glob).Some? && Promises(glob, path) && !Describes(glob, path, false)
  {
    var a := [Literal('a')] + ([Literal('/')] + ([AnyInSegment] + [AnyInSegment]));
    var b := [Literal('b')];
    SplitTokens(glob);
    assert Tokens(glob, 0, 0) == [Open] + (a + ([Comma] + (b + [Close])));
    PairParses(a, b);
    PairExpansions(a, b);
    var g := ParseGlob(glob).value;
    assert glob[2] == '/' && Target(glob, path) == path;
    StarsBehind(a, path);
    PromisesMean(glob, path);
    assert a in Expansions(g) && FusedTakes(glob, a, path);
    OtherMisses(b, path);
    NoneTakes(g, a, b, path);
  }

  lemma CoveredTokens(glob: string)
    requires glob == "**/{**,x}"
    ensures Tokens(glob, 0, 0) == [Directories] + ([Open, AnyInSegment, AnyInSegment, Comma, Literal('x'), Close])
  {
    assert ReadToken(glob, 0, 0) == (Directories, 3);
    assert ReadToken(glob, 4, 1) == (AnyInSegment, 1);
    assert ReadToken(glob, 5, 1) == (AnyInSegment, 1);
    assert Tokens(glob, 8, 1) == [Close];
    assert Tokens(glob, 6, 1) == [Comma, Literal('x'), Close];
    assert Tokens(glob, 4, 1) == [AnyInSegment, AnyInSegment, Comma, Literal('x'), Close];
    assert Tokens(glob, 3, 0) == [Open] + Tokens(glob, 4, 1);
  }

  // A recognised `**` may make good what a split loses: `**/{**,x}` splits, but matches every path.
  lemma CoveredSplit(glob: string, path: string)
    requires glob == "**/{**,x}"
    ensures ParseGlob(glob).Some? && SplitsStars(glob) && Describes(glob, path, false)
  {
    var (a, b) := ([AnyInSegment] + [AnyInSegment], [Literal('x')]);
    CoveredTokens(glob);
    assert Tokens(glob, 0, 0) == [Directories] + ([Open] + (a + ([Comma] + (b + [Close]))));
    PairParses(a, b);
    DirectoriesParse([Open] + (a + ([Comma] + (b + [Close]))), Pair(a, b));
    PairExpansions(a, b);
    assert glob[2] == '/' && Target(glob, path) == path;
    CoveredTree(ParseGlob(glob).value, Pair(a, b), a, path);
    NoStars(a);
    NoStars(b);
    assert NoEverything(Pair(a, b));
    FlagIrrelevant(ParseGlob(glob).value, path);
  }

  lemma {:induction false} NoStars(e: seq<Token>)
    requires forall t <- e :: !t.Everything?
    ensures NoEverything(FromTokens(e))
  {
    if e != [] {
      NoStars(e[1..]);
    }
  }

  lemma DirectoriesParse(ts: seq<Token>, g: Glob)
    requires ParseItems(ts) == Some((g, []))
    ensures ParseItems([Directories] + ts) == Some((Item(Directories, g), []))
  {
    assert ([Directories] + ts)[1..] == ts;
  }

  lemma DirectoryPart(path: string, k: nat)
    requires k == LastIndexOf(path, '/') + 1
    ensures TokenAccepts(Directories, path[..k], true) && path[k..] == Basename(path)
  {
    LastIndexOfIsLast(path, '/');
  }

  /** Any directories and then any file name take every path. */
  lemma DirectoriesAndName(e: seq<Token>, path: string)
    requires e == [AnyInSegment] + [AnyInSegment]
    ensures Takes([Directories] + e, path, true)
  {
    var k := LastIndexOf(path, '/') + 1;
    DirectoryPart(path, k);
    BasenameHasNoSlash(path);
    TwoStarsMiss(path[k..]);
    TakesAt(Directories, e, path, k);
  }

  lemma CoveredTree(g: Glob, next: Glob, a: seq<Token>, path: string)
    requires g == Item(Directories, next) && a in Expansions(next) && a == [AnyInSegment] + [AnyInSegment]
    ensures Accepts(g, path, true)
    ensures exists e <- Expansions(g) :: Splits(e, true) && Peopled(e)
  {
    assert [Directories] + a in Expansions(g) && Peopled([Directories] + a);
    SplitBehind(a);
    DirectoriesAndName(a, path);
    ExpansionsUnite(g, path, true);
  }

  lemma SplitBehind(a: seq<Token>)
    requires a == [AnyInSegment] + [AnyInSegment]
    ensures Splits([Directories] + a, true)
  {
    assert ([Directories] + a)[1..] == a && StarsMeet(a, true);
  }
}
