/**
 * `compileGlob` in src/core/glob-match.ts, and how far the compiled matcher
 * agrees with what the documentation says of a final `**`. Which stars are a
 * `**` is here as the translator sees it; GlobAlternation asks where that is
 * not what multiplying out the braces would give.
 */
module GlobMatch {
  import opened GlobRegex
  import opened GlobSyntax
  import opened RegExp
  import opened Wrappers

  const MAX_GLOB_CHARS: nat := 1024

  // ---------------------------------------------------------------- compileGlob

  /** White space and line terminators that `trim` removes (ECMA-262 sections 12.2 and 12.3). */
  predicate JsWhiteSpace(c: char) {
    c in "\t\U{000B}\U{000C} \U{00A0}\U{FEFF}\U{1680}\U{202F}\U{205F}\U{3000}"
    || '\U{2000}' <= c <= '\U{200A}' || LineTerminator(c)
  }

  function TrimStart(s: string): string {
    if s != "" && JsWhiteSpace(s[0]) then TrimStart(s[1..]) else s
  }

  function TrimEnd(s: string): string {
    if s != "" && JsWhiteSpace(s[|s| - 1]) then TrimEnd(s[..|s| - 1]) else s
  }

  /** White space trimmed, then one leading `./` dropped. */
  function Normalize(glob: string): string {
    var trimmed := TrimEnd(TrimStart(glob));
    if "./" <= trimmed then trimmed[2..] else trimmed
  }

  /** `text.lastIndexOf(c)` */
  function LastIndexOf(text: string, c: char): (r: int)
    ensures -1 <= r < |text|
  {
    if text == "" then -1
    else if text[|text| - 1] == c then |text| - 1
    else LastIndexOf(text[..|text| - 1], c)
  }

  /** The text after the last slash. */
  function Basename(path: string): string {
    path[LastIndexOf(path, '/') + 1..]
  }

  datatype Matcher = Matcher(basenameOnly: bool, regex: Node) {
    ghost predicate Test(path: string) {
      RegExp.Test(regex, if basenameOnly then Basename(path) else path)
    }
  }

  /** What of a path a glob is held against: without a slash in the glob, the file name. */
  function Target(glob: string, path: string): string {
    if '/' in glob then path else Basename(path)
  }

  /**
   * What a normalized glob describes as the translator reads it: a glob without
   * a slash describes file names at any depth.
   */
  ghost predicate Describes(glob: string, path: string, everything: bool)
    requires ParseGlob(glob).Some?
  {
    Accepts(ParseGlob(glob).value, Target(glob, path), everything)
  }

  predicate LegalLength(glob: string) {
    1 <= |glob| <= MAX_GLOB_CHARS && '\0' !in glob
  }

  lemma GlobText(glob: string)
    requires ParseGlob(glob).Some?
    ensures WellFormed(ParseGlob(glob).value)
    ensures EmitAll(Tokens(glob, 0, 0)) == EmitGlob(ParseGlob(glob).value)
  {
    TokensAreGood(glob, 0, 0);
    ItemsEmitted(Tokens(glob, 0, 0));
  }

  // ---------------------------------------------------------------- what is cut off

  predicate AllWhite(s: string) {
    forall i :: 0 <= i < |s| ==> JsWhiteSpace(s[i])
  }

  /** Neither end is white space. */
  predicate Bare(s: string) {
    s != "" ==> !JsWhiteSpace(s[0]) && !JsWhiteSpace(s[|s| - 1])
  }

  /** `core` stands between `pre` and `post`, and is taken for the glob `g`. */
  predicate CutsAt(glob: string, pre: string, core: string, post: string, g: string) {
    && glob == pre + core + post && AllWhite(pre) && AllWhite(post) && Bare(core)
    && if "./" <= core then core == "./" + g else core == g
  }

  /** The glob without the white space around it and then without one leading `./` is `g`. */
  ghost predicate CutsTo(glob: string, g: string) {
    exists pre, core, post :: CutsAt(glob, pre, core, post, g)
  }

  lemma {:induction false} TrimStartCuts(s: string) returns (pre: string)
    ensures s == pre + TrimStart(s) && AllWhite(pre)
    ensures TrimStart(s) != "" ==> !JsWhiteSpace(TrimStart(s)[0])
  {
    pre := "";
    if s != "" && JsWhiteSpace(s[0]) {
      var rest := TrimStartCuts(s[1..]);
      pre := WhiteFirst(s, rest, TrimStart(s));
    }
  }

  lemma WhiteFirst(s: string, rest: string, core: string) returns (pre: string)
    requires s != "" && JsWhiteSpace(s[0]) && s[1..] == rest + core && AllWhite(rest)
    ensures s == pre + core && AllWhite(pre)
  {
    pre := [s[0]] + rest;
    assert s == [s[0]] + s[1..];
  }

  lemma {:induction false} TrimEndCuts(s: string) returns (post: string)
    ensures s == TrimEnd(s) + post && AllWhite(post)
    ensures TrimEnd(s) != "" ==> !JsWhiteSpace(TrimEnd(s)[|TrimEnd(s)| - 1])
  {
    post := "";
    if s != "" && JsWhiteSpace(s[|s| - 1]) {
      var rest := TrimEndCuts(s[..|s| - 1]);
      post := WhiteLast(s, rest, TrimEnd(s));
    }
  }

  lemma WhiteLast(s: string, rest: string, core: string) returns (post: string)
    requires s != "" && JsWhiteSpace(s[|s| - 1]) && s[..|s| - 1] == core + rest && AllWhite(rest)
    ensures s == core + post && AllWhite(post)
  {
    post := rest + [s[|s| - 1]];
    assert s == s[..|s| - 1] + [s[|s| - 1]];
  }

  lemma CoreCuts(glob: string, pre: string, core: string, post: string)
    requires glob == pre + core + post && AllWhite(pre) && AllWhite(post) && Bare(core)
    ensures CutsTo(glob, if "./" <= core then core[2..] else core)
  {
    var g := if "./" <= core then core[2..] else core;
    assert "./" <= core ==> core == "./" + g;
    assert CutsAt(glob, pre, core, post, g);
  }

  lemma EndsTrimmed(s: string, core: string, post: string)
    requires s == core + post && (s != "" ==> !JsWhiteSpace(s[0]))
    requires core != "" ==> !JsWhiteSpace(core[|core| - 1])
    ensures Bare(core)
  {
    assert core != "" ==> core[0] == s[0];
  }

  lemma Wrap(glob: string, pre: string, rest: string, core: string, post: string)
    requires glob == pre + rest && rest == core + post
    ensures glob == pre + core + post
  {
  }

  lemma NormalizeCuts(glob: string)
    ensures CutsTo(glob, Normalize(glob))
  {
    var pre := TrimStartCuts(glob);
    var rest := TrimStart(glob);
    var post := TrimEndCuts(rest);
    var core := TrimEnd(rest);
    EndsTrimmed(rest, core, post);
    Wrap(glob, pre, rest, core, post);
    CoreCuts(glob, pre, core, post);
  }

  /** There is one way to cut. */
  lemma CutsUnique(glob: string, g: string, h: string)
    requires CutsTo(glob, g) && CutsTo(glob, h)
    ensures g == h
  {
    var p, c, q :| CutsAt(glob, p, c, q, g);
    var p', c', q' :| CutsAt(glob, p', c', q', h);
    CoreUnique(p, c, q, p', c', q');
    if "./" <= c {
      assert g == c[2..] && h == c[2..];
    }
  }

  lemma CoreUnique(p: string, c: string, q: string, p': string, c': string, q': string)
    requires p + c + q == p' + c' + q' && AllWhite(p) && AllWhite(q) && AllWhite(p') && AllWhite(q')
    requires Bare(c) && Bare(c')
    ensures c == c'
  {
    CoreStarts(p, c, q, p', c', q');
    CoreStarts(p', c', q', p, c, q);
    if c != "" {
      CoreEnds(p, c, q, p', c', q');
      CoreEnds(p', c', q', p, c, q);
      var all := p + c + q;
      assert c == all[|p|..|p| + |c|] && c' == (p' + c' + q')[|p|..|p| + |c|];
    }
  }

  /** What is not white space lies in the core. */
  lemma InCore(p: string, c: string, q: string, i: nat)
    requires AllWhite(p) && AllWhite(q) && i < |p + c + q| && !JsWhiteSpace((p + c + q)[i])
    ensures |p| <= i < |p| + |c|
  {
  }

  lemma CoreStarts(p: string, c: string, q: string, p': string, c': string, q': string)
    requires p + c + q == p' + c' + q' && AllWhite(p') && AllWhite(q') && Bare(c)
    ensures c != "" ==> c' != "" && |p'| <= |p|
  {
    if c != "" {
      assert (p + c + q)[|p|] == c[0];
      InCore(p', c', q', |p|);
    }
  }

  lemma CoreEnds(p: string, c: string, q: string, p': string, c': string, q': string)
    requires p + c + q == p' + c' + q' && AllWhite(p') && AllWhite(q') && Bare(c) && c != ""
    ensures |p| + |c| <= |p'| + |c'|
  {
    assert (p + c + q)[|p| + |c| - 1] == c[|c| - 1];
    InCore(p', c', q', |p| + |c| - 1);
  }

  /** White space around a glob makes no difference. */
  lemma WhiteSpaceIgnored(pre: string, core: string, post: string, g: string)
    requires AllWhite(pre) && AllWhite(post)
    ensures CutsTo(pre + core + post, g) <==> CutsTo(core, g)
  {
    NormalizeCuts(core);
    var h := Normalize(core);
    CutsWidened(pre, core, post, h);
    if CutsTo(core, g) {
      CutsUnique(core, g, h);
    }
    if CutsTo(pre + core + post, g) {
      CutsUnique(pre + core + post, g, h);
    }
  }

  lemma CutsWidened(pre: string, core: string, post: string, g: string)
    requires AllWhite(pre) && AllWhite(post) && CutsTo(core, g)
    ensures CutsTo(pre + core + post, g)
  {
    var p, c, q :| CutsAt(core, p, c, q, g);
    Rewrapped(pre, p, c, q, post);
    assert CutsAt(pre + core + post, pre + p, c, q + post, g);
  }

  lemma Rewrapped(pre: string, p: string, c: string, q: string, post: string)
    requires AllWhite(pre) && AllWhite(p) && AllWhite(q) && AllWhite(post)
    ensures pre + (p + c + q) + post == (pre + p) + c + (q + post)
    ensures AllWhite(pre + p) && AllWhite(q + post)
  {
  }

  /**
   * A leading `./` makes no difference exactly to globs that do not begin with
   * one themselves nor, unless they are blank, with white space.
   */
  lemma DotSlashIgnored(g: string)
    ensures (forall h :: CutsTo("./" + g, h) <==> CutsTo(g, h))
            <==> !("./" <= g) && (AllWhite(g) || !JsWhiteSpace(g[0]))
  {
    var tail := TrimEndCuts(g);
    var core := TrimEnd(g);
    DottedCut(g, core, tail);
    NormalizeCuts(g);
    var h := Normalize(g);
    var p, c, q :| CutsAt(g, p, c, q, h);
    CutOfOther(g, core, tail, p, c, q, h);
    SameCuts("./" + g, core, g, h);
  }

  lemma SameCuts(a: string, g: string, b: string, h: string)
    requires CutsTo(a, g) && CutsTo(b, h)
    ensures (forall x :: CutsTo(a, x) <==> CutsTo(b, x)) <==> g == h
  {
    forall x
      ensures CutsTo(a, x) <==> x == g
      ensures CutsTo(b, x) <==> x == h
    {
      if CutsTo(a, x) {
        CutsUnique(a, x, g);
      }
      if CutsTo(b, x) {
        CutsUnique(b, x, h);
      }
    }
  }

  lemma DottedCut(g: string, core: string, tail: string)
    requires g == core + tail && AllWhite(tail) && (core != "" ==> !JsWhiteSpace(core[|core| - 1]))
    ensures CutsTo("./" + g, core)
  {
    var dotted := "./" + core;
    assert "./" + (core + tail) == "" + dotted + tail;
    assert Bare(dotted);
    assert CutsAt("./" + g, "", dotted, tail, core);
  }

  lemma StartsBare(g: string, core: string, tail: string, p: string, c: string, q: string)
    requires g == core + tail && AllWhite(tail) && (core != "" ==> !JsWhiteSpace(core[|core| - 1]))
    requires g == p + c + q && AllWhite(p) && AllWhite(q) && Bare(c)
    requires AllWhite(g) || !JsWhiteSpace(g[0])
    ensures c == core
  {
    assert g == "" + core + tail;
    assert core != "" ==> g[0] == core[0] && core[|core| - 1] == g[|core| - 1];
    CoreUnique(p, c, q, "", core, tail);
  }

  /** Otherwise the two are cut to different globs. */
  lemma CutOfOther(g: string, core: string, tail: string, p: string, c: string, q: string, h: string)
    requires g == core + tail && AllWhite(tail) && (core != "" ==> !JsWhiteSpace(core[|core| - 1]))
    requires CutsAt(g, p, c, q, h)
    ensures h == core <==> !("./" <= g) && (AllWhite(g) || !JsWhiteSpace(g[0]))
  {
    if AllWhite(g) || !JsWhiteSpace(g[0]) {
      StartsBare(g, core, tail, p, c, q);
      assert "./" <= g <==> "./" <= c by {
        DottedCore(g, core, tail);
      }
    } else {
      LongerCore(g, core, tail, p, c, q);
    }
  }

  lemma DottedCore(g: string, core: string, tail: string)
    requires g == core + tail && AllWhite(tail)
    ensures "./" <= g <==> "./" <= core
  {
    if "./" <= g {
      assert g[0] == '.' && g[1] == '/' && !JsWhiteSpace('.') && !JsWhiteSpace('/');
      assert g == "" + core + tail;
      InCore("", core, tail, 1);
    }
  }

  lemma LongerCore(g: string, core: string, tail: string, p: string, c: string, q: string)
    requires g == core + tail && AllWhite(tail) && (core != "" ==> !JsWhiteSpace(core[|core| - 1]))
    requires g == p + c + q && AllWhite(p) && AllWhite(q) && Bare(c)
    requires !AllWhite(g) && JsWhiteSpace(g[0])
    ensures |core| > |c|
  {
    assert core != "" ==> g[|core| - 1] == core[|core| - 1];
    if core != "" {
      InCore(p, c, q, |core| - 1);
    }
    assert c != "" ==> g[|p| + |c| - 1] == c[|c| - 1];
    FirstOfCore(g, p, c, q);
  }

  lemma FirstOfCore(g: string, p: string, c: string, q: string)
    requires g == p + c + q
    ensures p == "" && c != "" ==> g[0] == c[0]
  {
  }

  /**
   * With the white space around the glob and then one leading `./` cut off, the
   * compiled matcher decides exactly the paths the rest describes, except that
   * a final `**` stops at a line terminator. Compilation fails exactly on
   * illegal lengths, an unclosed brace group or a descending class range.
   */
  method CompileGlob(glob: string) returns (r: Result<Matcher, ()>)
    ensures exists g :: CutsTo(glob, g)
    ensures forall g :: CutsTo(glob, g) ==>
              (r.Success? <==> LegalLength(g) && ParseGlob(g).Some? && OrderedGlob(ParseGlob(g).value))
    ensures r.Success? ==> forall g :: CutsTo(glob, g) ==>
              ParseGlob(g).Some? && forall path :: r.value.Test(path) <==> Describes(g, path, false)
  {
    var trimmed := Normalize(glob);
    NormalizeCuts(glob);
    forall g | CutsTo(glob, g)
      ensures g == trimmed
    {
      CutsUnique(glob, g, trimmed);
    }
    if !LegalLength(trimmed) {
      return Failure(());
    }
    var basenameOnly := '/' !in trimmed;
    var translated := Translate(trimmed);
    ParsesIffClosed(trimmed);
    if translated.Failure? {
      return Failure(());
    }
    GlobText(trimmed);
    ghost var g := ParseGlob(trimmed).value;
    AnchoredParses(g);
    match ParsePattern("^" + translated.value + "$") {
      case Fail =>
        r := Failure(());
      case Ok(regex, _) =>
        r := Success(Matcher(basenameOnly, regex));
        forall path
          ensures r.value.Test(path) <==> Describes(trimmed, path, false)
        {
          AnchoredMatches(g, if basenameOnly then Basename(path) else path);
        }
    }
  }

  // ---------------------------------------------------------------- the final **

  /** Of the `**` the translator recognised, compiled and documented meaning differ at line terminators only. */
  lemma {:induction false} OneLineSuffices(g: Glob, s: string)
    ensures Accepts(g, s, false) ==> Accepts(g, s, true)
    ensures NoLineTerminator(s) ==> (Accepts(g, s, true) <==> Accepts(g, s, false))
    decreases g
  {
    match g
    case End =>
    case Item(t, next) =>
      forall k | 0 <= k <= |s|
        ensures Accepts(next, s[k..], false) ==> Accepts(next, s[k..], true)
        ensures NoLineTerminator(s) ==> (Accepts(next, s[k..], true) <==> Accepts(next, s[k..], false))
        ensures NoLineTerminator(s) ==> NoLineTerminator(s[..k])
      {
        OneLineSuffices(next, s[k..]);
      }
    case Group(alternatives, next) =>
      forall k | 0 <= k <= |s|
        ensures Accepts(next, s[k..], false) ==> Accepts(next, s[k..], true)
        ensures SomeAccepts(alternatives, s[..k], false) ==> SomeAccepts(alternatives, s[..k], true)
        ensures NoLineTerminator(s) ==> (Accepts(next, s[k..], true) <==> Accepts(next, s[k..], false))
        ensures NoLineTerminator(s) ==>
                  (SomeAccepts(alternatives, s[..k], true) <==> SomeAccepts(alternatives, s[..k], false))
      {
        OneLineSuffices(next, s[k..]);
        OneLineSufficesAny(alternatives, s[..k]);
      }
  }

  lemma {:induction false} OneLineSufficesAny(alternatives: Alternatives, s: string)
    ensures SomeAccepts(alternatives, s, false) ==> SomeAccepts(alternatives, s, true)
    ensures NoLineTerminator(s) ==> (SomeAccepts(alternatives, s, true) <==> SomeAccepts(alternatives, s, false))
    decreases alternatives
  {
    OneLineSuffices(if alternatives.Last? then alternatives.only else alternatives.head, s);
    if alternatives.More? {
      OneLineSufficesAny(alternatives.tail, s);
    }
  }

  /** The glob is `**` or ends in a whole segment `**`. */
  predicate EndsInStars(glob: string) {
    glob == "**" || (|glob| >= 3 && glob[|glob| - 3..] == "/**")
  }

  predicate AtSegmentStart(glob: string, i: nat)
    requires i <= |glob|
  {
    i == 0 || glob[i - 1] == '/'
  }

  predicate EndsSegment(t: Token) {
    t == Literal('/') || t.Directories?
  }

  /** Directory wildcards stand at segment starts, and a final `**` is final. */
  predicate Aligned(ts: seq<Token>, segmentStart: bool) {
    ts != [] ==>
    && (ts[0].Everything? ==> segmentStart && |ts| == 1)
    && (ts[0].Directories? ==> segmentStart)
    && Aligned(ts[1..], EndsSegment(ts[0]))
  }

  lemma {:induction false} TokensAligned(glob: string, i: nat, depth: nat)
    requires i <= |glob|
    ensures Aligned(Tokens(glob, i, depth), AtSegmentStart(glob, i))
    decreases |glob| - i
  {
    if i < |glob| {
      var (t, width) := ReadToken(glob, i, depth);
      SegmentStarts(glob, i, depth);
      TokensAligned(glob, i + width, DepthAfter(t, depth));
      var rest := Tokens(glob, i + width, DepthAfter(t, depth));
      assert Tokens(glob, i, depth)[1..] == rest;
      AlignedMonotone(rest, AtSegmentStart(glob, i + width), EndsSegment(t));
    }
  }

  lemma SegmentStarts(glob: string, i: nat, depth: nat)
    requires i < |glob|
    ensures var (t, width) := ReadToken(glob, i, depth);
            && ((t.Everything? || t.Directories?) ==> AtSegmentStart(glob, i))
            && (t.Everything? ==> i + width == |glob|)
            && (AtSegmentStart(glob, i + width) ==> EndsSegment(t))
  {
    BracketEnd(glob, i, depth);
  }

  lemma BracketEnd(glob: string, i: nat, depth: nat)
    requires i < |glob|
    ensures var (t, width) := ReadToken(glob, i, depth); t.Bracket? ==> glob[i + width - 1] == ']'
  {
    if ReadToken(glob, i, depth).0.Bracket? {
      IndexOfIsFirst(glob, ']', i + 1);
    }
  }

  /** An `Everything` can only stand last. */
  predicate OnlyLast(ts: seq<Token>) {
    forall k :: 0 <= k < |ts| - 1 ==> !ts[k].Everything?
  }

  lemma {:induction false} EverythingIsLast(glob: string, i: nat, depth: nat)
    requires i <= |glob|
    requires EndsInStars(glob) ==> i != |glob| - 1
    ensures var ts := Tokens(glob, i, depth);
            && (ts != [] ==> (ts[|ts| - 1].Everything? <==> EndsInStars(glob)))
            && OnlyLast(ts)
    decreases |glob| - i
  {
    if i < |glob| {
      var (t, width) := ReadToken(glob, i, depth);
      LastTokens(glob, i, depth);
      EverythingIsLast(glob, i + width, DepthAfter(t, depth));
    }
  }

  lemma LastTokens(glob: string, i: nat, depth: nat)
    requires i < |glob|
    requires EndsInStars(glob) ==> i != |glob| - 1
    ensures var (t, width) := ReadToken(glob, i, depth);
            && (t.Everything? ==> i + width == |glob|)
            && (i + width == |glob| ==> (t.Everything? <==> EndsInStars(glob)))
            && (EndsInStars(glob) ==> i + width != |glob| - 1)
  {
    BracketEnd(glob, i, depth);
    if |glob| >= 3 {
      var end := glob[|glob| - 3..];
      assert end == [glob[|glob| - 3], glob[|glob| - 2], glob[|glob| - 1]];
      if EndsInStars(glob) {
        assert end[0] == '/' && end[1] == '*' && end[2] == '*';
      }
    }
  }

  lemma AlignedMonotone(ts: seq<Token>, weak: bool, strong: bool)
    requires Aligned(ts, weak) && (weak ==> strong)
    ensures Aligned(ts, strong)
  {
  }

  /** `g` ends in a final `**` whose text starts a path segment. */
  predicate AlignedTail(g: Glob, segmentStart: bool) {
    match g
    case End => false
    case Item(t, next) =>
      if t.Everything? then segmentStart && next.End?
      else (t.Directories? ==> segmentStart) && AlignedTail(next, EndsSegment(t))
    case Group(_, next) => AlignedTail(next, false)
  }

  predicate NoEverything(g: Glob) {
    match g
    case End => true
    case Item(t, next) => !t.Everything? && NoEverything(next)
    case Group(alternatives, next) => NoneEverything(alternatives) && NoEverything(next)
  }

  predicate NoneEverything(alternatives: Alternatives) {
    match alternatives
    case Last(g) => NoEverything(g)
    case More(g, rest) => NoEverything(g) && NoneEverything(rest)
  }

  predicate Suffix(rest: seq<Token>, ts: seq<Token>) {
    |rest| <= |ts| && rest == ts[|ts| - |rest|..]
  }

  lemma SuffixOnlyLast(rest: seq<Token>, ts: seq<Token>)
    requires Suffix(rest, ts) && OnlyLast(ts)
    ensures OnlyLast(rest)
    ensures rest != [] ==> rest[|rest| - 1] == ts[|ts| - 1]
  {
  }

  lemma SuffixSuffix(rest: seq<Token>, middle: seq<Token>, ts: seq<Token>)
    requires Suffix(rest, middle) && Suffix(middle, ts)
    ensures Suffix(rest, ts)
  {
  }

  /** A tree holds an `Everything` only where the text of the tokens it was read from does. */
  lemma {:induction false} ItemsEverything(ts: seq<Token>)
    requires ParseItems(ts).Some? && OnlyLast(ts)
    ensures var (g, rest) := ParseItems(ts).value;
            Suffix(rest, ts) && (rest != [] || ts == [] || !ts[|ts| - 1].Everything? ==> NoEverything(g))
    decreases |ts|, 1
  {
    if ts != [] && !ts[0].Comma? && !ts[0].Close? {
      var tail := ts[1..];
      assert Suffix(tail, ts);
      SuffixOnlyLast(tail, ts);
      if ts[0].Open? {
        GroupEverything(tail);
        var middle := ParseGroup(tail).value.1;
        SuffixOnlyLast(middle, tail);
        ItemsEverything(middle);
        SuffixSuffix(middle, tail, ts);
        SuffixSuffix(ParseItems(middle).value.1, middle, ts);
      } else {
        ItemsEverything(tail);
        SuffixSuffix(ParseItems(tail).value.1, tail, ts);
      }
    }
  }

  lemma {:induction false} GroupEverything(ts: seq<Token>)
    requires ParseGroup(ts).Some? && OnlyLast(ts)
    ensures var (alternatives, rest) := ParseGroup(ts).value;
            Suffix(rest, ts) && |rest| < |ts| && ts[|ts| - |rest| - 1].Close? && NoneEverything(alternatives)
    decreases |ts|, 2
  {
    ItemsEverything(ts);
    ItemsParse(ts, 0);
    var rest := ParseItems(ts).value.1;
    if rest[0].Comma? {
      var tail := rest[1..];
      assert Suffix(tail, rest);
      SuffixSuffix(tail, rest, ts);
      SuffixOnlyLast(tail, ts);
      GroupEverything(tail);
      SuffixSuffix(ParseGroup(tail).value.1, tail, ts);
    }
  }

  lemma {:induction false} ItemsAligned(ts: seq<Token>, segmentStart: bool)
    requires ParseItems(ts).Some? && ParseItems(ts).value.1 == [] && ts != [] && ts[|ts| - 1].Everything?
    requires Aligned(ts, segmentStart) && OnlyLast(ts)
    ensures AlignedTail(ParseItems(ts).value.0, segmentStart)
    decreases |ts|
  {
    if ts[0].Open? {
      GroupEverything(ts[1..]);
      var rest := ParseGroup(ts[1..]).value.1;
      AlignedSuffix(ts, segmentStart, |ts| - |rest|);
      ItemsAligned(rest, false);
    } else if !ts[0].Everything? {
      ItemsAligned(ts[1..], EndsSegment(ts[0]));
    }
  }

  lemma {:induction false} AlignedSuffix(ts: seq<Token>, segmentStart: bool, n: nat)
    requires Aligned(ts, segmentStart) && 0 < n <= |ts| && ts[n - 1].Close?
    ensures Aligned(ts[n..], false)
  {
    if n > 1 {
      AlignedSuffix(ts[1..], EndsSegment(ts[0]), n - 1);
      assert ts[1..][n - 1..] == ts[n..];
    }
  }

  lemma {:induction false} FlagIrrelevant(g: Glob, s: string)
    requires NoEverything(g)
    ensures Accepts(g, s, true) <==> Accepts(g, s, false)
    decreases g
  {
    match g
    case End =>
    case Item(t, next) =>
      forall k | 0 <= k <= |s|
        ensures Accepts(next, s[k..], true) <==> Accepts(next, s[k..], false)
      {
        FlagIrrelevant(next, s[k..]);
      }
    case Group(alternatives, next) =>
      forall k | 0 <= k <= |s|
        ensures Accepts(next, s[k..], true) <==> Accepts(next, s[k..], false)
        ensures SomeAccepts(alternatives, s[..k], true) <==> SomeAccepts(alternatives, s[..k], false)
      {
        FlagIrrelevant(next, s[k..]);
        FlagIrrelevantAny(alternatives, s[..k]);
      }
  }

  lemma {:induction false} FlagIrrelevantAny(alternatives: Alternatives, s: string)
    requires NoneEverything(alternatives)
    ensures SomeAccepts(alternatives, s, true) <==> SomeAccepts(alternatives, s, false)
    decreases alternatives
  {
    FlagIrrelevant(if alternatives.Last? then alternatives.only else alternatives.head, s);
    if alternatives.More? {
      FlagIrrelevantAny(alternatives.tail, s);
    }
  }

  /** What a final `**` compiles to never takes a line terminator at the very end. */
  lemma {:induction false} TailRejects(g: Glob, segmentStart: bool, s: string)
    requires AlignedTail(g, segmentStart) && Accepts(g, s, false)
    ensures if s == "" then segmentStart else !LineTerminator(s[|s| - 1])
    decreases g
  {
    match g
    case Item(t, next) =>
      var k :| 0 <= k <= |s| && TokenAccepts(t, s[..k], false) && Accepts(next, s[k..], false);
      if t.Everything? {
        assert s[k..] == "" && s[..k] == s;
      } else {
        TailRejects(next, EndsSegment(t), s[k..]);
        SameEnd(s, k);
        ItemRejects(t, segmentStart, s, k);
      }
    case Group(alternatives, next) =>
      var k :| 0 <= k <= |s| && SomeAccepts(alternatives, s[..k], false) && Accepts(next, s[k..], false);
      TailRejects(next, false, s[k..]);
      SameEnd(s, k);
  }

  lemma SameEnd(s: string, k: nat)
    requires k <= |s|
    ensures s[k..] == "" <==> k == |s|
    ensures k < |s| ==> s[k..][|s[k..]| - 1] == s[|s| - 1]
  {
  }

  lemma ItemRejects(t: Token, segmentStart: bool, s: string, k: nat)
    requires k <= |s| && TokenAccepts(t, s[..k], false) && !t.Everything? && (t.Directories? ==> segmentStart)
    requires if k == |s| then EndsSegment(t) else !LineTerminator(s[|s| - 1])
    ensures if s == "" then segmentStart else !LineTerminator(s[|s| - 1])
  {
    if k == |s| {
      assert s[..k] == s;
    }
  }

  lemma {:induction false} TailExtends(g: Glob, segmentStart: bool, s: string, more: string)
    requires AlignedTail(g, segmentStart) && Accepts(g, s, true)
    ensures Accepts(g, s + more, true)
    decreases g
  {
    var k :| 0 <= k <= |s| && HeadAccepts(g, s[..k], true) && Accepts(g.next, s[k..], true);
    var t := s + more;
    if g.Item? && g.token.Everything? {
      assert t[|t|..] == "" && TokenAccepts(Everything, t[..|t|], true);
    } else {
      TailExtends(g.next, g.Item? && EndsSegment(g.token), s[k..], more);
      assert t[..k] == s[..k] && t[k..] == s[k..] + more;
      assert HeadAccepts(g, t[..k], true) && Accepts(g.next, t[k..], true);
      assert k <= |t|;
    }
  }

  /** A class has a member; all but negated classes that leave out every character do. */
  ghost predicate Inhabited(t: Token) {
    t.Bracket? ==> exists c :: InRanges(Members(t.body), c) != Negated(t.body)
  }

  ghost predicate AllInhabited(g: Glob) {
    match g
    case End => true
    case Item(t, next) => Inhabited(t) && AllInhabited(next)
    case Group(alternatives, next) => EachInhabited(alternatives) && AllInhabited(next)
  }

  ghost predicate EachInhabited(alternatives: Alternatives) {
    match alternatives
    case Last(g) => AllInhabited(g)
    case More(g, rest) => AllInhabited(g) && EachInhabited(rest)
  }

  lemma PlainClassInhabited(body: string)
    requires body != "" && !Negated(body) && Ordered(body)
    ensures Inhabited(Bracket(body))
  {
    assert InRanges(Members(body), body[0]) != Negated(body);
  }

  ghost function TokenSample(t: Token, slashes: nat): string {
    match t
    case Literal(c) => [c]
    case OneInSegment => "x"
    case Bracket(body) =>
      if Inhabited(t) then
        var c :| InRanges(Members(body), c) != Negated(body);
        [c]
      else ""
    case Directories => Repeat('/', slashes)
    case Everything => Repeat('/', slashes)
    case _ => ""
  }

  /** Some text the glob describes: first alternatives, shortest choices, but this many slashes for each `**`. */
  ghost function Sample(g: Glob, slashes: nat): string {
    match g
    case End => ""
    case Item(t, next) => TokenSample(t, slashes) + Sample(next, slashes)
    case Group(alternatives, next) => SampleOf(alternatives, slashes) + Sample(next, slashes)
  }

  ghost function SampleOf(alternatives: Alternatives, slashes: nat): string {
    match alternatives
    case Last(g) => Sample(g, slashes)
    case More(g, _) => Sample(g, slashes)
  }

  function Repeat(c: char, n: nat): string {
    seq(n, _ => c)
  }

  lemma {:induction false} SampleAccepted(g: Glob, slashes: nat)
    requires WellFormed(g) && AllInhabited(g)
    ensures Accepts(g, Sample(g, slashes), true)
    decreases g
  {
    match g
    case End =>
    case Item(t, next) =>
      SampleAccepted(next, slashes);
      var (s, k) := (Sample(g, slashes), |Sample(g, slashes)| - |Sample(next, slashes)|);
      assert s[k..] == Sample(next, slashes) && TokenAccepts(t, s[..k], true);
    case Group(alternatives, next) =>
      SampleAccepted(next, slashes);
      SampleOfAccepted(alternatives, slashes);
      var (s, k) := (Sample(g, slashes), |SampleOf(alternatives, slashes)|);
      assert s[k..] == Sample(next, slashes) && s[..k] == SampleOf(alternatives, slashes);
  }

  lemma {:induction false} SampleOfAccepted(alternatives: Alternatives, slashes: nat)
    requires AllWellFormed(alternatives) && EachInhabited(alternatives)
    ensures SomeAccepts(alternatives, SampleOf(alternatives, slashes), true)
    decreases alternatives
  {
    SampleAccepted(if alternatives.Last? then alternatives.only else alternatives.head, slashes);
  }

  /** Where the glob does not end in `**`, its recognised `**` are compiled to their documented meaning. */
  lemma AgreesWithoutFinalStars(glob: string, path: string)
    requires ParseGlob(glob).Some? && !EndsInStars(glob)
    ensures Describes(glob, path, true) <==> Describes(glob, path, false)
  {
    EverythingIsLast(glob, 0, 0);
    ItemsEverything(Tokens(glob, 0, 0));
    FlagIrrelevant(ParseGlob(glob).value, Target(glob, path));
  }

  lemma StarsEnd(glob: string)
    requires ParseGlob(glob).Some? && EndsInStars(glob)
    ensures AlignedTail(ParseGlob(glob).value, true)
    ensures glob != "**" ==> '/' in glob
  {
    TokensAligned(glob, 0, 0);
    EverythingIsLast(glob, 0, 0);
    ItemsAligned(Tokens(glob, 0, 0), true);
    if glob != "**" {
      assert glob[|glob| - 3..][0] == '/';
    }
  }

  /** If a glob ending in `**` describes any path, it should match one that it does not: with a line feed added. */
  lemma StarsMiss(glob: string, described: string) returns (path: string)
    requires ParseGlob(glob).Some? && EndsInStars(glob) && Describes(glob, described, true)
    ensures Describes(glob, path, true) && !Describes(glob, path, false)
  {
    StarsEnd(glob);
    path := if '/' in glob then described + ['\n'] else ['\n'];
    if '/' in glob {
      TailExtends(ParseGlob(glob).value, true, described, ['\n']);
    } else {
      OneCharName(path);
      LoneStarsTake(glob, path);
    }
    assert Target(glob, path) == path;
    FeedRejected(ParseGlob(glob).value, path);
  }

  lemma LoneStarsTake(glob: string, path: string)
    requires glob == "**"
    ensures ParseGlob(glob).Some? && Describes(glob, path, true)
  {
    StarsAcceptAll(Target(glob, path));
  }

  lemma OneCharName(path: string)
    requires |path| == 1 && path[0] != '/'
    ensures Basename(path) == path
  {
    assert LastIndexOf(path[..0], '/') == -1;
  }

  lemma FeedRejected(g: Glob, path: string)
    requires AlignedTail(g, true) && path != "" && path[|path| - 1] == '\n'
    ensures !Accepts(g, path, false)
  {
    if Accepts(g, path, false) {
      TailRejects(g, true, path);
    }
  }

  lemma StarsAcceptAll(s: string)
    ensures ParseGlob("**") == Some(Item(Everything, End)) && Accepts(Item(Everything, End), s, true)
  {
    assert ReadToken("**", 0, 0) == (Everything, 2);
    assert Tokens("**", 0, 0) == [Everything];
    assert ParseItems([Everything]) == Some((Item(Everything, End), []));
    assert s[|s|..] == "" && TokenAccepts(Everything, s[..|s|], true);
  }

  /**
   * "A final `**` matches everything" fails: the compiled `.*` stops at a line
   * terminator. With the stars read as the translator reads them, compiled and
   * documented meaning agree on all paths exactly for
   * the globs that do not end in `**`, and for those that describe no path at
   * all, which takes a class without members such as a negated full range.
   */
  lemma FinalStarsDisagree(glob: string)
    requires ParseGlob(glob).Some?
    ensures (forall path :: Describes(glob, path, true) <==> Describes(glob, path, false))
            <==> !EndsInStars(glob) || forall path :: !Describes(glob, path, true)
  {
    if !EndsInStars(glob) {
      forall path {:trigger Describes(glob, path, true)}
        ensures Describes(glob, path, true) <==> Describes(glob, path, false)
      {
        AgreesWithoutFinalStars(glob, path);
      }
    } else if described :| Describes(glob, described, true) {
      var path := StarsMiss(glob, described);
      assert Describes(glob, path, true) && !Describes(glob, path, false);
    } else {
      forall path {:trigger Describes(glob, path, true)}
        ensures Describes(glob, path, true) <==> Describes(glob, path, false)
      {
        OneLineSuffices(ParseGlob(glob).value, Target(glob, path));
      }
    }
  }

  /** Globs whose classes all have members describe some path, so for them only the ending matters. */
  lemma PlainGlobsDescribe(glob: string) returns (path: string)
    requires ParseGlob(glob).Some? && AllInhabited(ParseGlob(glob).value)
    requires EndsInStars(glob)
    ensures Describes(glob, path, true)
  {
    var g := ParseGlob(glob).value;
    GlobText(glob);
    path := Sample(g, 0);
    SampleAccepted(g, 0);
    if glob == "**" {
      StarsAcceptAll(Basename(path));
    } else {
      assert glob[|glob| - 3..][0] == '/';
    }
  }
}
