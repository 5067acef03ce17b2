/**
 * Braces in globs as alternation. The documentation of src/core/glob-match.ts
 * lists `**` and `{a,b}` side by side; multiplying the braces out and reading
 * each resulting glob on its own is what that promises. The translator reads
 * the stars of the glob as it stands, so the two part where a brace or a comma
 * cuts two stars off from the ends of their path segment.
 */
module GlobExpansion {
  import opened GlobMatch
  import opened GlobRegex
  import opened GlobSyntax
  import opened Wrappers

  // ---------------------------------------------------------------- multiplying out

  /** Every choice of one alternative for each brace group, as tokens. */
  function Expansions(g: Glob): set<seq<Token>> {
    match g
    case End => {[]}
    case Item(t, next) => set e <- Expansions(next) :: [t] + e
    case Group(alternatives, next) => set a <- ExpansionsOfAny(alternatives), b <- Expansions(next) :: a + b
  }

  function ExpansionsOfAny(alternatives: Alternatives): set<seq<Token>> {
    match alternatives
    case Last(g) => Expansions(g)
    case More(g, rest) => Expansions(g) + ExpansionsOfAny(rest)
  }

  function FromTokens(e: seq<Token>): Glob {
    if e == [] then End else Item(e[0], FromTokens(e[1..]))
  }

  ghost predicate Takes(e: seq<Token>, s: string, everything: bool) {
    Accepts(FromTokens(e), s, everything)
  }

  ghost predicate SomeTakes(es: set<seq<Token>>, s: string, everything: bool) {
    exists e <- es :: Takes(e, s, everything)
  }

  lemma TakesFirst(t: Token, e: seq<Token>, s: string, everything: bool)
    ensures Takes([t] + e, s, everything) <==>
            exists k :: 0 <= k <= |s| && TokenAccepts(t, s[..k], everything) && Takes(e, s[k..], everything)
  {
    assert ([t] + e)[1..] == e;
  }

  ghost predicate CutTakes(a: seq<Token>, b: seq<Token>, s: string, everything: bool, k: nat) {
    k <= |s| && Takes(a, s[..k], everything) && Takes(b, s[k..], everything)
  }

  lemma SlicesNest(s: string, m: nat, k: nat)
    requires m <= k <= |s|
    ensures s[..k][..m] == s[..m] && s[..k][m..] == s[m..][..k - m] && s[k..] == s[m..][k - m..]
  {
  }

  lemma {:induction false} JoinTakes(a: seq<Token>, b: seq<Token>, s: string, everything: bool, k: nat)
    requires CutTakes(a, b, s, everything, k)
    ensures Takes(a + b, s, everything)
    decreases |a|
  {
    if a == [] {
      assert a + b == b && s[k..] == s;
    } else {
      var rest := a[1..];
      assert a == [a[0]] + rest && a + b == [a[0]] + (rest + b);
      TakesFirst(a[0], rest, s[..k], everything);
      var m :| 0 <= m <= k && TokenAccepts(a[0], s[..k][..m], everything) && Takes(rest, s[..k][m..], everything);
      SlicesNest(s, m, k);
      JoinTakes(rest, b, s[m..], everything, k - m);
      TakesFirst(a[0], rest + b, s, everything);
    }
  }

  lemma {:induction false} CutFound(a: seq<Token>, b: seq<Token>, s: string, everything: bool) returns (k: nat)
    requires Takes(a + b, s, everything)
    ensures CutTakes(a, b, s, everything, k)
    decreases |a|
  {
    if a == [] {
      k := 0;
      assert a + b == b && s[0..] == s;
    } else {
      var rest := a[1..];
      assert a == [a[0]] + rest && a + b == [a[0]] + (rest + b);
      TakesFirst(a[0], rest + b, s, everything);
      var m :| 0 <= m <= |s| && TokenAccepts(a[0], s[..m], everything) && Takes(rest + b, s[m..], everything);
      var n := CutFound(rest, b, s[m..], everything);
      k := m + n;
      SlicesNest(s, m, k);
      var front := s[..k];
      assert TokenAccepts(a[0], front[..m], everything) && Takes(rest, front[m..], everything);
      TakesFirst(a[0], rest, front, everything);
    }
  }

  /** On trees the law holds outright: a glob accepts what one of its expansions accepts. */
  lemma {:induction false} ExpansionsUnite(g: Glob, s: string, everything: bool)
    ensures Accepts(g, s, everything) <==> SomeTakes(Expansions(g), s, everything)
    decreases g
  {
    match g
    case End =>
      assert [] in Expansions(g);
    case Item(t, next) =>
      forall k | 0 <= k <= |s|
        ensures Accepts(next, s[k..], everything) <==> SomeTakes(Expansions(next), s[k..], everything)
      {
        ExpansionsUnite(next, s[k..], everything);
      }
      ItemUnites(t, next, s, everything);
    case Group(alternatives, next) =>
      forall k | 0 <= k <= |s|
        ensures Accepts(next, s[k..], everything) <==> SomeTakes(Expansions(next), s[k..], everything)
        ensures SomeAccepts(alternatives, s[..k], everything)
                <==> SomeTakes(ExpansionsOfAny(alternatives), s[..k], everything)
      {
        ExpansionsUnite(next, s[k..], everything);
        AlternativesUnite(alternatives, s[..k], everything);
      }
      GroupUnites(alternatives, next, s, everything);
  }

  lemma {:induction false} AlternativesUnite(alternatives: Alternatives, s: string, everything: bool)
    ensures SomeAccepts(alternatives, s, everything) <==> SomeTakes(ExpansionsOfAny(alternatives), s, everything)
    decreases alternatives
  {
    ExpansionsUnite(if alternatives.Last? then alternatives.only else alternatives.head, s, everything);
    if alternatives.More? {
      AlternativesUnite(alternatives.tail, s, everything);
    }
  }

  lemma ItemUnites(t: Token, next: Glob, s: string, everything: bool)
    requires forall k :: 0 <= k <= |s| ==>
               (Accepts(next, s[k..], everything) <==> SomeTakes(Expansions(next), s[k..], everything))
    ensures Accepts(Item(t, next), s, everything) <==> SomeTakes(Expansions(Item(t, next)), s, everything)
  {
    var g := Item(t, next);
    if Accepts(g, s, everything) {
      var k :| 0 <= k <= |s| && TokenAccepts(t, s[..k], everything) && Accepts(next, s[k..], everything);
      var e :| e in Expansions(next) && Takes(e, s[k..], everything);
      TakesFirst(t, e, s, everything);
      assert [t] + e in Expansions(g);
    }
    if e :| e in Expansions(g) && Takes(e, s, everything) {
      var rest :| rest in Expansions(next) && e == [t] + rest;
      TakesFirst(t, rest, s, everything);
    }
  }

  lemma GroupUnites(alternatives: Alternatives, next: Glob, s: string, everything: bool)
    requires forall k :: 0 <= k <= |s| ==>
               (Accepts(next, s[k..], everything) <==> SomeTakes(Expansions(next), s[k..], everything))
    requires forall k :: 0 <= k <= |s| ==>
               (SomeAccepts(alternatives, s[..k], everything)
                <==> SomeTakes(ExpansionsOfAny(alternatives), s[..k], everything))
    ensures Accepts(Group(alternatives, next), s, everything)
            <==> SomeTakes(Expansions(Group(alternatives, next)), s, everything)
  {
    var g := Group(alternatives, next);
    if Accepts(g, s, everything) {
      var k :| 0 <= k <= |s| && SomeAccepts(alternatives, s[..k], everything) && Accepts(next, s[k..], everything);
      var a :| a in ExpansionsOfAny(alternatives) && Takes(a, s[..k], everything);
      var b :| b in Expansions(next) && Takes(b, s[k..], everything);
      JoinTakes(a, b, s, everything, k);
      assert a + b in Expansions(g);
    }
    if e :| e in Expansions(g) && Takes(e, s, everything) {
      var a, b :| a in ExpansionsOfAny(alternatives) && b in Expansions(next) && e == a + b;
      var k := CutFound(a, b, s, everything);
      assert SomeAccepts(alternatives, s[..k], everything) && Accepts(next, s[k..], everything);
    }
  }

  // ---------------------------------------------------------------- the text of an expansion

  /** The part of a glob that a token was read from. */
  function TokenText(t: Token): string {
    match t
    case Literal(c) => [c]
    case AnyInSegment => "*"
    case OneInSegment => "?"
    case Directories => "**/"
    case Everything => "**"
    case Bracket(body) => "[" + body + "]"
    case Open => "{"
    case Comma => ","
    case Close => "}"
  }

  function Text(ts: seq<Token>): string {
    if ts == [] then "" else TokenText(ts[0]) + Text(ts[1..])
  }

  lemma {:induction false} TokenTextRead(glob: string, i: nat, depth: nat)
    requires i < |glob|
    ensures var (t, width) := ReadToken(glob, i, depth); TokenText(t) == glob[i..i + width]
  {
    var (t, width) := ReadToken(glob, i, depth);
    if t.Bracket? {
      IndexOfIsFirst(glob, ']', i + 1);
      assert glob[i..i + width] == [glob[i]] + glob[i + 1..i + width - 1] + [glob[i + width - 1]];
    } else if t.Directories? {
      assert glob[i..i + 3] == [glob[i], glob[i + 1], glob[i + 2]];
    } else if t.Everything? {
      assert glob[i..i + 2] == [glob[i], glob[i + 1]];
    } else {
      assert glob[i..i + 1] == [glob[i]];
    }
  }

  lemma Cut(s: string, i: nat, j: nat)
    requires i <= j <= |s|
    ensures s[i..] == s[i..j] + s[j..]
  {
  }

  /** The tokens of a glob spell it. */
  lemma {:induction false} TextRestores(glob: string, i: nat, depth: nat)
    requires i <= |glob|
    ensures Text(Tokens(glob, i, depth)) == glob[i..]
    decreases |glob| - i
  {
    if i < |glob| {
      var (t, width) := ReadToken(glob, i, depth);
      TokenTextRead(glob, i, depth);
      TextRestores(glob, i + width, DepthAfter(t, depth));
      var rest := Tokens(glob, i + width, DepthAfter(t, depth));
      TokensNext(glob, i, depth, (t, width), rest);
      TextStep(glob, i, i + width, t, rest);
    }
  }

  lemma TokensNext(text: string, i: nat, depth: nat, read: (Token, nat), rest: seq<Token>)
    requires i < |text| && ReadToken(text, i, depth) == read
    requires i + read.1 <= |text| && Tokens(text, i + read.1, DepthAfter(read.0, depth)) == rest
    ensures Tokens(text, i, depth) == [read.0] + rest
  {
  }

  lemma TextStep(glob: string, i: nat, j: nat, t: Token, rest: seq<Token>)
    requires i <= j <= |glob| && TokenText(t) == glob[i..j] && Text(rest) == glob[j..]
    ensures Text([t] + rest) == glob[i..]
  {
    assert ([t] + rest)[1..] == rest;
    Cut(glob, i, j);
  }

  /** The glob with its braces multiplied out. */
  function Expanded(glob: string): set<string>
    requires ParseGlob(glob).Some?
  {
    set e <- Expansions(ParseGlob(glob).value) :: Text(e)
  }

  /** What the documentation promises: some expansion, read as a glob of its own, describes the path. */
  ghost predicate Promises(glob: string, path: string)
    requires ParseGlob(glob).Some?
  {
    exists text <- Expanded(glob) :: Reads(text, Target(glob, path))
  }

  ghost predicate Reads(text: string, s: string) {
    ParseGlob(text).Some? && Accepts(ParseGlob(text).value, s, true)
  }

  // ---------------------------------------------------------------- reading an expansion

  /** Two single stars make up a whole path segment. */
  predicate StarsMeet(e: seq<Token>, segmentStart: bool) {
    && segmentStart && |e| >= 2 && e[0].AnyInSegment? && e[1].AnyInSegment?
    && (|e| > 2 ==> e[2] == Literal('/'))
  }

  predicate Splits(e: seq<Token>, segmentStart: bool) {
    e != [] && (StarsMeet(e, segmentStart) || Splits(e[1..], EndsSegment(e[0])))
  }

  /** The tokens as they are read when nothing but this expansion is there. */
  function Fuse(e: seq<Token>, segmentStart: bool): seq<Token> {
    if e == [] then []
    else if StarsMeet(e, segmentStart) then
      if |e| == 2 then [Everything] else [Directories] + Fuse(e[3..], true)
    else [e[0]] + Fuse(e[1..], EndsSegment(e[0]))
  }

  predicate HoldsCloser(t: Token) {
    t == Literal(']') || t.Bracket?
  }

  predicate NoCloser(ts: seq<Token>) {
    forall t <- ts :: !HoldsCloser(t)
  }

  /** A `[` that is not the start of a class is followed by `]` at once or not at all; a `{` is never a literal. */
  predicate PlainBrackets(ts: seq<Token>) {
    ts != [] ==>
    && ts[0] != Literal('{')
    && (ts[0] == Literal('[') ==> (|ts| > 1 && ts[1] == Literal(']')) || NoCloser(ts[1..]))
    && PlainBrackets(ts[1..])
  }

  /** What the tokens of every glob keep to. */
  predicate Tidy(ts: seq<Token>, segmentStart: bool) {
    Aligned(ts, segmentStart) && GoodTokens(ts) && PlainBrackets(ts)
  }

  predicate NoBraces(e: seq<Token>) {
    forall t <- e :: !t.Open? && !t.Comma? && !t.Close?
  }

  lemma TidyTail(ts: seq<Token>, segmentStart: bool)
    requires Tidy(ts, segmentStart) && ts != []
    ensures Tidy(ts[1..], EndsSegment(ts[0]))
  {
  }

  lemma TidyFirst(t: Token, rest: seq<Token>, segmentStart: bool)
    requires Tidy(rest, EndsSegment(t)) && GoodToken(t) && t != Literal('{')
    requires (t.Everything? ==> segmentStart && rest == []) && (t.Directories? ==> segmentStart)
    requires t == Literal('[') ==> (rest != [] && rest[0] == Literal(']')) || NoCloser(rest)
    ensures Tidy([t] + rest, segmentStart)
  {
    var all := [t] + rest;
    assert all[1..] == rest;
    assert GoodTokens(all);
  }

  lemma TidyWeaken(ts: seq<Token>, segmentStart: bool)
    requires Tidy(ts, false)
    ensures Tidy(ts, segmentStart)
  {
  }

  lemma CloserText(t: Token)
    ensures HoldsCloser(t) ==> ']' in TokenText(t)
  {
    if t.Bracket? {
      assert TokenText(t)[|t.body| + 1] == ']';
    }
  }

  lemma {:induction false} CloserFree(glob: string, i: nat, depth: nat)
    requires i <= |glob| && ']' !in glob[i..]
    ensures NoCloser(Tokens(glob, i, depth))
    decreases |glob| - i
  {
    if i < |glob| {
      var (t, width) := ReadToken(glob, i, depth);
      TokenTextRead(glob, i, depth);
      assert forall c <- glob[i..i + width] + glob[i + width..] :: c in glob[i..];
      CloserText(t);
      CloserFree(glob, i + width, DepthAfter(t, depth));
    }
  }

  lemma {:induction false} IndexOfNone(text: string, c: char, from: nat)
    requires from <= |text| && IndexOf(text, c, from) == -1
    ensures c !in text[from..]
    decreases |text| - from
  {
    if from < |text| {
      IndexOfNone(text, c, from + 1);
      assert text[from..] == [text[from]] + text[from + 1..];
    }
  }

  lemma {:induction false} TokensPlain(glob: string, i: nat, depth: nat)
    requires i <= |glob|
    ensures PlainBrackets(Tokens(glob, i, depth))
    decreases |glob| - i
  {
    if i < |glob| {
      var (t, width) := ReadToken(glob, i, depth);
      var rest := Tokens(glob, i + width, DepthAfter(t, depth));
      TokensPlain(glob, i + width, DepthAfter(t, depth));
      assert Tokens(glob, i, depth)[1..] == rest;
      if t == Literal('[') {
        if IndexOf(glob, ']', i + 1) == -1 {
          IndexOfNone(glob, ']', i + 1);
          CloserFree(glob, i + 1, depth);
        } else {
          IndexOfIsFirst(glob, ']', i + 1);
          assert glob[i + 1] == ']';
          assert rest[0] == Literal(']');
        }
      }
    }
  }

  lemma TokensTidy(glob: string)
    ensures Tidy(Tokens(glob, 0, 0), true)
  {
    TokensAligned(glob, 0, 0);
    TokensAreGood(glob, 0, 0);
    TokensPlain(glob, 0, 0);
  }

  /** What an expansion of `ts`, with `f` after it, keeps of `ts`. */
  predicate Kept(ts: seq<Token>, segmentStart: bool, e: seq<Token>) {
    && Tidy(e, segmentStart) && NoBraces(e)
    && (NoCloser(ts) ==> NoCloser(e))
  }

  /** The rest after a brace or comma is as tidy as the whole. */
  lemma {:induction false} RestTidy(ts: seq<Token>, segmentStart: bool)
    requires Tidy(ts, segmentStart) && ParseItems(ts).Some?
    ensures var rest := ParseItems(ts).value.1;
            && (rest == [] || rest[0].Comma? || rest[0].Close?)
            && Tidy(rest, false) && (NoCloser(ts) ==> NoCloser(rest))
    decreases |ts|, 1
  {
    if ts != [] && !ts[0].Comma? && !ts[0].Close? {
      TidyTail(ts, segmentStart);
      if ts[0].Open? {
        GroupRestTidy(ts[1..]);
        RestTidy(ParseGroup(ts[1..]).value.1, false);
      } else {
        RestTidy(ts[1..], EndsSegment(ts[0]));
      }
    }
  }

  lemma {:induction false} GroupRestTidy(ts: seq<Token>)
    requires Tidy(ts, false) && ParseGroup(ts).Some?
    ensures var rest := ParseGroup(ts).value.1; Tidy(rest, false) && (NoCloser(ts) ==> NoCloser(rest))
    decreases |ts|, 2
  {
    RestTidy(ts, false);
    var rest := ParseItems(ts).value.1;
    TidyTail(rest, false);
    if rest[0].Comma? {
      GroupRestTidy(rest[1..]);
    }
  }

  /** An expansion is as tidy as the tokens it was chosen from. */
  lemma {:induction false} ItemsTidy(ts: seq<Token>, segmentStart: bool, e: seq<Token>, f: seq<Token>)
    requires Tidy(ts, segmentStart) && ParseItems(ts).Some? && e in Expansions(ParseItems(ts).value.0)
    requires Kept(ParseItems(ts).value.1, false, f) && (ParseItems(ts).value.1 == [] ==> f == [])
    ensures Kept(ts, segmentStart, e + f)
    decreases |ts|, 1
  {
    if ts == [] || ts[0].Comma? || ts[0].Close? {
      assert e + f == f;
      TidyWeaken(f, segmentStart);
    } else {
      TidyTail(ts, segmentStart);
      if ts[0].Open? {
        GroupTidy(ts[1..], e, f);
        TidyWeaken(e + f, segmentStart);
      } else {
        var rest :| rest in Expansions(ParseItems(ts[1..]).value.0) && e == [ts[0]] + rest;
        ItemsTidy(ts[1..], EndsSegment(ts[0]), rest, f);
        assert e + f == [ts[0]] + (rest + f);
        FirstChosen(ts[1..], rest);
        TidyFirst(ts[0], rest + f, segmentStart);
      }
    }
  }

  lemma {:induction false} GroupTidy(ts: seq<Token>, e: seq<Token>, f: seq<Token>)
    requires Tidy(ts, false) && ParseGroup(ts).Some? && ParseItems(ParseGroup(ts).value.1).Some?
    requires var (alternatives, middle) := ParseGroup(ts).value;
             var (next, rest) := ParseItems(middle).value;
             e in Expansions(Group(alternatives, next)) && Kept(rest, false, f) && (rest == [] ==> f == [])
    ensures Kept(ts, false, e + f)
    decreases |ts|, 3
  {
    var (alternatives, middle) := ParseGroup(ts).value;
    var next := ParseItems(middle).value.0;
    var a, b :| a in ExpansionsOfAny(alternatives) && b in Expansions(next) && e == a + b;
    GroupRestTidy(ts);
    ItemsTidy(middle, false, b, f);
    AlternativesTidy(ts, a, b + f);
    assert e + f == a + (b + f);
  }

  /** A literal at the front of the tokens is at the front of every expansion, and no tokens give none. */
  lemma FirstChosen(ts: seq<Token>, e: seq<Token>)
    requires ParseItems(ts).Some? && e in Expansions(ParseItems(ts).value.0)
    ensures ts == [] ==> e == [] && ParseItems(ts).value.1 == []
    ensures ts != [] && ts[0].Literal? ==> e != [] && e[0] == ts[0]
  {
  }

  lemma {:induction false} AlternativesTidy(ts: seq<Token>, e: seq<Token>, f: seq<Token>)
    requires Tidy(ts, false) && ParseGroup(ts).Some? && e in ExpansionsOfAny(ParseGroup(ts).value.0)
    requires Kept(ParseGroup(ts).value.1, false, f)
    ensures Kept(ts, false, e + f)
    decreases |ts|, 2
  {
    RestTidy(ts, false);
    var (g, rest) := ParseItems(ts).value;
    TidyTail(rest, false);
    if rest[0].Comma? {
      GroupRestTidy(rest[1..]);
      if e in ExpansionsOfAny(ParseGroup(rest[1..]).value.0) {
        AlternativesTidy(rest[1..], e, f);
      } else {
        ItemsTidy(ts, false, e, f);
      }
    } else {
      ItemsTidy(ts, false, e, f);
    }
  }

  lemma ExpansionTidy(glob: string, e: seq<Token>)
    requires ParseGlob(glob).Some? && e in Expansions(ParseGlob(glob).value)
    ensures Tidy(e, true) && NoBraces(e)
  {
    TokensTidy(glob);
    ItemsTidy(Tokens(glob, 0, 0), true, e, []);
    assert e + [] == e;
  }

  lemma {:induction false} IndexOfShift(prefix: string, text: string, c: char, from: nat)
    ensures IndexOf(prefix + text, c, |prefix| + from) ==
            if IndexOf(text, c, from) == -1 then -1 else |prefix| + IndexOf(text, c, from)
    decreases |text| - from
  {
    if from < |text| {
      IndexOfShift(prefix, text, c, from + 1);
    }
  }

  lemma {:induction false} IndexOfFirst(text: string, c: char, from: nat, at: nat)
    requires from <= at < |text| && text[at] == c && c !in text[from..at]
    ensures IndexOf(text, c, from) == at
    decreases at - from
  {
    if from < at {
      assert text[from..at] == [text[from]] + text[from + 1..at];
      IndexOfFirst(text, c, from + 1, at);
    }
  }

  lemma {:induction false} IndexOfAbsent(text: string, c: char, from: nat)
    requires from <= |text| && c !in text[from..]
    ensures IndexOf(text, c, from) == -1
    decreases |text| - from
  {
    if from < |text| {
      assert text[from..] == [text[from]] + text[from + 1..];
      IndexOfAbsent(text, c, from + 1);
    }
  }

  lemma {:induction false} NoCloserText(ts: seq<Token>)
    requires NoCloser(ts) && GoodTokens(ts) && NoBraces(ts)
    ensures ']' !in Text(ts)
  {
    if ts != [] {
      NoCloserText(ts[1..]);
      assert ']' !in TokenText(ts[0]);
    }
  }

  /** The reader stands before the text of `e`, in a segment or at its start. */
  predicate Stands(prefix: string, e: seq<Token>, segmentStart: bool) {
    && Tidy(e, segmentStart) && NoBraces(e)
    && (segmentStart <==> prefix == "" || prefix[|prefix| - 1] == '/')
  }

  lemma TextAhead(prefix: string, text: string)
    requires text != ""
    ensures var all := prefix + text;
            && all[|prefix|] == text[0]
            && (AtSegmentStart(all, |prefix|) <==> prefix == "" || prefix[|prefix| - 1] == '/')
            && (|text| > 1 ==> all[|prefix| + 1] == text[1])
            && (|text| > 2 ==> all[|prefix| + 2] == text[2])
  {
  }

  lemma FirstText(e: seq<Token>)
    requires e != [] && NoBraces(e)
    ensures Text(e) == TokenText(e[0]) + Text(e[1..]) && TokenText(e[0]) != "" && Text(e)[0] == TokenText(e[0])[0]
  {
  }

  /** The character after a token of one character is the first of the next one. */
  lemma SecondText(e: seq<Token>)
    requires e != [] && NoBraces(e) && |TokenText(e[0])| == 1
    ensures |e| > 1 ==> |Text(e)| > 1 && TokenText(e[1]) != "" && Text(e)[1] == TokenText(e[1])[0]
    ensures |e| == 1 ==> |Text(e)| == 1
  {
    FirstText(e);
    if |e| > 1 {
      FirstText(e[1..]);
    }
  }

  /** Only stars begin with a star and only a slash with a slash. */
  lemma Beginnings(t: Token)
    requires GoodToken(t)
    ensures TokenText(t)[0] == '*' <==> t.AnyInSegment? || t.Directories? || t.Everything?
    ensures TokenText(t)[0] == '/' <==> t == Literal('/')
  {
  }

  lemma StarText(e: seq<Token>)
    requires |e| > 1 && NoBraces(e) && e[0].AnyInSegment? && e[1].AnyInSegment?
    ensures var (text, rest) := (Text(e), Text(e[2..]));
            && |text| == |rest| + 2 && text[0] == text[1] == '*' && (rest != "" ==> text[2] == rest[0])
    ensures |e| > 2 ==> Text(e[2..]) != "" && TokenText(e[2]) != "" && Text(e[2..])[0] == TokenText(e[2])[0]
    ensures |e| == 2 ==> Text(e[2..]) == ""
  {
    FirstText(e);
    FirstText(e[1..]);
    assert e[1..][1..] == e[2..];
    TwoChars(Text(e), Text(e[1..]), Text(e[2..]), "*");
    if |e| > 2 {
      FirstText(e[2..]);
    }
  }

  lemma TwoChars(text: string, next: string, rest: string, c: string)
    requires |c| == 1 && text == c + next && next == c + rest
    ensures |text| == |rest| + 2 && text[0] == text[1] == c[0] && (rest != "" ==> text[2] == rest[0])
  {
  }

  /** Two stars that make up a segment are read as one wildcard. */
  lemma MeetingRead(prefix: string, e: seq<Token>, segmentStart: bool)
    requires Stands(prefix, e, segmentStart) && StarsMeet(e, segmentStart)
    ensures |prefix| < |prefix + Text(e)|
    ensures ReadToken(prefix + Text(e), |prefix|, 0) == if |e| == 2 then (Everything, 2) else (Directories, 3)
  {
    StarText(e);
    TextAhead(prefix, Text(e));
  }

  /** A star anywhere else is read as it was. */
  lemma StarRead(prefix: string, e: seq<Token>, segmentStart: bool)
    requires Stands(prefix, e, segmentStart) && e != [] && e[0].AnyInSegment? && !StarsMeet(e, segmentStart)
    ensures |prefix| < |prefix + Text(e)| && ReadToken(prefix + Text(e), |prefix|, 0) == (AnyInSegment, 1)
  {
    FirstText(e);
    SecondText(e);
    TextAhead(prefix, Text(e));
    if |e| > 1 {
      TidyTail(e, segmentStart);
      Beginnings(e[1]);
      if e[1].AnyInSegment? {
        StarText(e);
        if |e| > 2 {
          assert GoodToken(e[2]);
          Beginnings(e[2]);
        }
      }
    }
  }

  lemma WholeStarsRead(prefix: string, e: seq<Token>, segmentStart: bool)
    requires Stands(prefix, e, segmentStart) && e != [] && (e[0].Directories? || e[0].Everything?)
    ensures |prefix| < |prefix + Text(e)|
    ensures ReadToken(prefix + Text(e), |prefix|, 0) == (e[0], |TokenText(e[0])|)
  {
    FirstText(e);
    TextAhead(prefix, Text(e));
  }

  lemma BracketedText(body: string, rest: string)
    ensures var text := "[" + body + "]" + rest;
            |text| > |body| + 1 && text[1..|body| + 1] == body && text[|body| + 1] == ']'
  {
  }

  lemma ClassRead(prefix: string, body: string, text: string)
    requires ']' !in body && |text| > |body| + 1 && text[1..|body| + 1] == body && text[|body| + 1] == ']'
    ensures var all := prefix + text;
            && IndexOf(all, ']', |prefix| + 1) == |prefix| + |body| + 1
            && all[|prefix| + 1..|prefix| + |body| + 1] == body
  {
    assert ']' !in text[1..|body| + 1];
    IndexOfFirst(text, ']', 1, |body| + 1);
    IndexOfShift(prefix, text, ']', 1);
    SliceShift(prefix, text, 1, |body| + 1);
  }

  lemma SliceShift(prefix: string, text: string, i: nat, j: nat)
    requires i <= j <= |text|
    ensures (prefix + text)[|prefix| + i..|prefix| + j] == text[i..j]
  {
  }

  lemma BracketRead(prefix: string, e: seq<Token>, segmentStart: bool)
    requires Stands(prefix, e, segmentStart) && e != [] && e[0].Bracket?
    ensures |prefix| < |prefix + Text(e)|
    ensures ReadToken(prefix + Text(e), |prefix|, 0) == (e[0], |TokenText(e[0])|)
  {
    FirstText(e);
    TextAhead(prefix, Text(e));
    assert GoodToken(e[0]);
    BracketedText(e[0].body, Text(e[1..]));
    ClassRead(prefix, e[0].body, Text(e));
  }

  lemma OpenerRead(prefix: string, e: seq<Token>, segmentStart: bool)
    requires Stands(prefix, e, segmentStart) && e != [] && e[0] == Literal('[')
    ensures |prefix| < |prefix + Text(e)| && ReadToken(prefix + Text(e), |prefix|, 0) == (Literal('['), 1)
  {
    FirstText(e);
    TextAhead(prefix, Text(e));
    var text := Text(e);
    IndexOfShift(prefix, text, ']', 1);
    if |e| > 1 && e[1] == Literal(']') {
      IndexOfFirst(text, ']', 1, 1);
    } else {
      NoCloserText(e[1..]);
      assert text[1..] == Text(e[1..]);
      IndexOfAbsent(text, ']', 1);
    }
  }

  lemma LiteralRead(prefix: string, e: seq<Token>, segmentStart: bool)
    requires Stands(prefix, e, segmentStart) && e != [] && (e[0].Literal? || e[0].OneInSegment?) && e[0] != Literal('[')
    ensures |prefix| < |prefix + Text(e)| && ReadToken(prefix + Text(e), |prefix|, 0) == (e[0], 1)
  {
    assert GoodToken(e[0]);
    FirstText(e);
    TextAhead(prefix, Text(e));
  }

  lemma HeadRead(prefix: string, e: seq<Token>, segmentStart: bool)
    requires Stands(prefix, e, segmentStart) && e != [] && !StarsMeet(e, segmentStart)
    ensures |prefix| < |prefix + Text(e)|
    ensures ReadToken(prefix + Text(e), |prefix|, 0) == (e[0], |TokenText(e[0])|)
  {
    if e[0].AnyInSegment? {
      StarRead(prefix, e, segmentStart);
    } else if e[0].Directories? || e[0].Everything? {
      WholeStarsRead(prefix, e, segmentStart);
    } else if e[0].Bracket? {
      BracketRead(prefix, e, segmentStart);
    } else if e[0] == Literal('[') {
      OpenerRead(prefix, e, segmentStart);
    } else {
      LiteralRead(prefix, e, segmentStart);
    }
  }

  lemma StandsNext(prefix: string, e: seq<Token>, segmentStart: bool)
    requires Stands(prefix, e, segmentStart) && e != []
    ensures Stands(prefix + TokenText(e[0]), e[1..], EndsSegment(e[0]))
    ensures prefix + Text(e) == (prefix + TokenText(e[0])) + Text(e[1..])
  {
    TidyTail(e, segmentStart);
    TextEnd(prefix, e[0]);
    assert NoBraces(e[1..]);
    assert Text(e) == TokenText(e[0]) + Text(e[1..]);
    Attach(prefix, TokenText(e[0]), Text(e[1..]));
  }

  lemma Attach(a: string, b: string, c: string)
    ensures a + (b + c) == (a + b) + c
  {
  }

  lemma TextEnd(prefix: string, t: Token)
    ensures var all := prefix + TokenText(t); all != "" && (all[|all| - 1] == '/' <==> EndsSegment(t))
  {
  }

  lemma StandsBehind(prefix: string, e: seq<Token>, segmentStart: bool)
    requires Stands(prefix, e, segmentStart) && StarsMeet(e, segmentStart) && |e| > 2
    ensures Stands(prefix + "**/", e[3..], true)
    ensures prefix + Text(e) == (prefix + "**/") + Text(e[3..])
  {
    StandsNext(prefix, e, segmentStart);
    StandsNext(prefix + "*", e[1..], false);
    StandsNext(prefix + "*" + "*", e[2..], false);
    assert e[1..][1..] == e[2..] && e[2..][1..] == e[3..];
    assert prefix + "*" + "*" + "/" == prefix + "**/";
  }

  ghost predicate ReadsAs(prefix: string, e: seq<Token>, ts: seq<Token>) {
    Tokens(prefix + Text(e), |prefix|, 0) == ts
  }

  lemma NextReadsAs(prefix: string, head: string, tail: string, text: string, t: Token, rest: seq<Token>)
    requires prefix + text == (prefix + head) + tail && |prefix| < |prefix + text|
    requires ReadToken(prefix + text, |prefix|, 0) == (t, |head|) && DepthAfter(t, 0) == 0
    requires Tokens((prefix + head) + tail, |prefix + head|, 0) == rest
    ensures Tokens(prefix + text, |prefix|, 0) == [t] + rest
  {
    TokensNext(prefix + text, |prefix|, 0, (t, |head|), rest);
  }

  lemma HeadReadsAs(prefix: string, e: seq<Token>, segmentStart: bool)
    requires Stands(prefix, e, segmentStart) && e != [] && !StarsMeet(e, segmentStart)
    requires ReadsAs(prefix + TokenText(e[0]), e[1..], Fuse(e[1..], EndsSegment(e[0])))
    ensures ReadsAs(prefix, e, Fuse(e, segmentStart))
  {
    HeadRead(prefix, e, segmentStart);
    StandsNext(prefix, e, segmentStart);
    assert NoBraces(e) && !e[0].Open? && !e[0].Close?;
    NextReadsAs(prefix, TokenText(e[0]), Text(e[1..]), Text(e), e[0], Fuse(e[1..], EndsSegment(e[0])));
  }

  lemma MeetingReadsAs(prefix: string, e: seq<Token>, segmentStart: bool)
    requires Stands(prefix, e, segmentStart) && StarsMeet(e, segmentStart)
    requires |e| > 2 ==> ReadsAs(prefix + "**/", e[3..], Fuse(e[3..], true))
    ensures ReadsAs(prefix, e, Fuse(e, segmentStart))
  {
    MeetingRead(prefix, e, segmentStart);
    if |e| == 2 {
      StarText(e);
      TokensNext(prefix + Text(e), |prefix|, 0, (Everything, 2), []);
    } else {
      StandsBehind(prefix, e, segmentStart);
      TokensNext(prefix + Text(e), |prefix|, 0, (Directories, 3), Fuse(e[3..], true));
    }
  }

  /** An expansion is read as its own tokens, but with stars that meet fused. */
  lemma {:induction false} ReadsFused(prefix: string, e: seq<Token>, segmentStart: bool)
    requires Stands(prefix, e, segmentStart)
    ensures ReadsAs(prefix, e, Fuse(e, segmentStart))
    decreases |e|
  {
    if e == [] {
      assert prefix + Text(e) == prefix;
    } else if StarsMeet(e, segmentStart) {
      if |e| > 2 {
        StandsBehind(prefix, e, segmentStart);
        ReadsFused(prefix + "**/", e[3..], true);
      }
      MeetingReadsAs(prefix, e, segmentStart);
    } else {
      StandsNext(prefix, e, segmentStart);
      ReadsFused(prefix + TokenText(e[0]), e[1..], EndsSegment(e[0]));
      HeadReadsAs(prefix, e, segmentStart);
    }
  }

  lemma {:induction false} ItemsParseStraight(e: seq<Token>)
    requires NoBraces(e)
    ensures ParseItems(e) == Some((FromTokens(e), []))
  {
    if e != [] {
      ItemsParseStraight(e[1..]);
    }
  }

  lemma {:induction false} FuseTokens(e: seq<Token>, segmentStart: bool)
    ensures forall t <- Fuse(e, segmentStart) :: t in e || t.Directories? || t.Everything?
    decreases |e|
  {
    if e != [] {
      if !StarsMeet(e, segmentStart) {
        FuseTokens(e[1..], EndsSegment(e[0]));
      } else if |e| > 2 {
        FuseTokens(e[3..], true);
      }
    }
  }

  /** Each expansion of a glob is a glob, whose tree is that of the fused expansion. */
  lemma ExpansionParses(glob: string, e: seq<Token>)
    requires ParseGlob(glob).Some? && e in Expansions(ParseGlob(glob).value)
    ensures ParseGlob(Text(e)) == Some(FromTokens(Fuse(e, true)))
  {
    ExpansionTidy(glob, e);
    ReadsFused("", e, true);
    assert "" + Text(e) == Text(e);
    FuseTokens(e, true);
    ItemsParseStraight(Fuse(e, true));
  }
}
