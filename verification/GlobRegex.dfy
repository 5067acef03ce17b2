/**
 * The text a glob is translated to, parsed and matched as ECMAScript does, has
 * the glob's own meaning.
 */
module GlobRegex {
  import opened GlobSyntax
  import opened RegExp
  import opened Wrappers

  // ---------------------------------------------------------------- trees and expressions

  function TokenRegex(t: Token): Node {
    match t
    case Literal(c) => Char(c)
    case AnyInSegment => Star(Class(true, "/"))
    case OneInSegment => Class(true, "/")
    case Directories => Star(Cat(Star(Class(true, "/")), Cat(Char('/'), Empty)))
    case Everything => Star(Dot)
    case Bracket(body) => Class(Negated(body), Members(body))
    case _ => Empty
  }

  /** The expression of `g` followed by `k`. */
  function RegexOf(g: Glob, k: Node): Node {
    match g
    case End => k
    case Item(t, next) => Cat(TokenRegex(t), RegexOf(next, k))
    case Group(alternatives, next) => Cat(RegexOfAny(alternatives), RegexOf(next, k))
  }

  function RegexOfAny(alternatives: Alternatives): Node {
    match alternatives
    case Last(g) => RegexOf(g, Empty)
    case More(g, rest) => Or(RegexOf(g, Empty), RegexOfAny(rest))
  }

  predicate OrderedToken(t: Token) {
    t.Bracket? ==> Ordered(Members(t.body))
  }

  /** No character class of the glob holds a descending range. */
  predicate OrderedGlob(g: Glob) {
    match g
    case End => true
    case Item(t, next) => OrderedToken(t) && OrderedGlob(next)
    case Group(alternatives, next) => AllOrdered(alternatives) && OrderedGlob(next)
  }

  predicate AllOrdered(alternatives: Alternatives) {
    match alternatives
    case Last(g) => OrderedGlob(g)
    case More(g, rest) => OrderedGlob(g) && AllOrdered(rest)
  }

  lemma {:induction false} ClassAtomsParse(members: string, rest: string)
    requires ']' !in members
    ensures ParseClassAtoms(DoubleBackslashes(members) + ("]" + rest)) == Ok(members, rest)
  {
    if members != "" {
      ClassAtomsParse(members[1..], rest);
      var tail := DoubleBackslashes(members[1..]) + ("]" + rest);
      var c := members[0];
      assert members == [c] + members[1..];
      if c == '\\' {
        assert DoubleBackslashes(members) + ("]" + rest) == ['\\', '\\'] + tail;
        assert (['\\', '\\'] + tail)[2..] == tail;
      } else {
        assert DoubleBackslashes(members) + ("]" + rest) == [c] + tail;
        assert ([c] + tail)[1..] == tail;
      }
    } else {
      assert DoubleBackslashes(members) + ("]" + rest) == "]" + rest;
    }
  }

  predicate StartsWith(s: string, c: char) {
    s != "" && s[0] == c
  }

  /** The bracket as a class: an optional caret and the escaped members. */
  lemma BracketText(body: string)
    requires body != ""
    ensures EmitBracket(body) == "[" + ((if Negated(body) then "^" else "") + (DoubleBackslashes(Members(body)) + "]"))
    ensures !Negated(body) ==> !StartsWith(DoubleBackslashes(Members(body)) + "]", '^')
  {
    var escaped := DoubleBackslashes(body);
    if Negated(body) {
      assert escaped == [body[0]] + DoubleBackslashes(body[1..]);
      assert escaped[1..] == DoubleBackslashes(body[1..]);
    }
  }

  lemma BracketParses(body: string, rest: string)
    requires body != "" && ']' !in body
    ensures EmitBracket(body) != "" && EmitBracket(body)[0] == '['
    ensures ParseAtom(EmitBracket(body) + rest) ==
            if Ordered(Members(body)) then Ok(Class(Negated(body), Members(body)), rest) else Fail
  {
    BracketText(body);
    ClassAtomsParse(Members(body), rest);
    var caret := if Negated(body) then "^" else "";
    ClassTextParses(EmitBracket(body), caret, DoubleBackslashes(Members(body)), Members(body), rest);
  }

  lemma ClassTextParses(emitted: string, caret: string, atoms: string, members: string, rest: string)
    requires caret == "^" || (caret == "" && !StartsWith(atoms + "]", '^'))
    requires emitted == "[" + (caret + (atoms + "]"))
    requires ParseClassAtoms(atoms + ("]" + rest)) == Ok(members, rest)
    ensures ParseAtom(emitted + rest) == if Ordered(members) then Ok(Class(caret == "^", members), rest) else Fail
  {
    var tail := atoms + ("]" + rest);
    Reassociate("[", caret, atoms, "]", rest);
    if caret == "" {
      assert caret + tail == tail;
      assert tail[0] == (atoms + "]")[0];
    }
    ParseClassText(caret + tail, tail, caret == "^");
  }

  lemma ParseClassText(text: string, atoms: string, negated: bool)
    requires if negated then text == "^" + atoms else text == atoms && !StartsWith(text, '^')
    ensures ParseAtom("[" + text) ==
            match ParseClassAtoms(atoms)
            case Ok(members, rest) => if Ordered(members) then Ok(Class(negated, members), rest) else Fail
            case Fail => Fail
  {
    assert ("[" + text)[1..] == text;
    assert negated ==> text[1..] == atoms;
  }

  lemma {:induction false} EscapedParses(c: char, rest: string)
    requires c != '*' && c != '?'
    ensures ParseAtom(EscapeRegExp(c) + rest) == Ok(Char(c), rest)
    ensures EscapeRegExp(c)[0] !in "*|)^$"
  {
    if SyntaxCharacter(c) {
      assert (['\\', c] + rest)[2..] == rest;
    } else {
      assert ([c] + rest)[1..] == rest;
    }
  }

  lemma NotSlashParses(rest: string)
    ensures ParseAtom("[^/]" + rest) == Ok(Class(true, "/"), rest)
  {
    BracketParses("!/", rest);
    assert DoubleBackslashes("!/") == "!/" by {
      assert DoubleBackslashes("/") == "/" + DoubleBackslashes("");
    }
    assert EmitBracket("!/") == "[^/]";
  }

  lemma NotSlashStarParses(rest: string)
    ensures ParseTerm("[^/]*" + rest) == Ok(Star(Class(true, "/")), rest)
  {
    NotSlashParses("*" + rest);
    assert "[^/]*" + rest == "[^/]" + ("*" + rest);
    assert ("*" + rest)[1..] == rest;
  }

  lemma DirectoryParses(end: string)
    requires StartsWith(end, ')')
    ensures ParseDisjunction("[^/]*" + ("/" + end)) == Ok(Cat(Star(Class(true, "/")), Cat(Char('/'), Empty)), end)
  {
    var tail := "/" + end;
    NotSlashStarParses(tail);
    assert tail[1..] == end;
    assert ParseTerm(tail) == Ok(Char('/'), end);
    assert ParseAlternative(tail) == Ok(Cat(Char('/'), Empty), end);
    assert ParseAlternative("[^/]*" + tail) == Ok(Cat(Star(Class(true, "/")), Cat(Char('/'), Empty)), end);
  }

  /** A parsed group, starred or not. */
  lemma GroupAtomParses(inner: string, after: string)
    ensures ParseDisjunction(inner).Ok? && ParseDisjunction(inner).rest == ")" + after ==>
            ParseAtom("(?:" + inner) == Ok(ParseDisjunction(inner).value, after)
    ensures ParseDisjunction(inner).Fail? ==> ParseAtom("(?:" + inner).Fail?
    ensures ("(?:" + inner)[0] == '('
  {
    assert ("(?:" + inner)[3..] == inner;
    assert (")" + after)[1..] == after;
  }

  lemma DirectoriesParses(rest: string)
    ensures ParseTerm("(?:[^/]*/)*" + rest) == Ok(TokenRegex(Directories), rest)
  {
    var end := ")" + ("*" + rest);
    DirectoryParses(end);
    GroupAtomParses("[^/]*" + ("/" + end), "*" + rest);
    assert "(?:[^/]*/)*" + rest == "(?:" + ("[^/]*" + ("/" + end));
    assert ("*" + rest)[1..] == rest;
  }

  /** One emitted token is one term, whatever text follows it. */
  lemma TokenParses(t: Token, rest: string)
    requires ItemToken(t) && !StartsWith(rest, '*')
    ensures Emit(t) != "" && Emit(t)[0] !in "*|)"
    ensures ParseTerm(Emit(t) + rest) == if OrderedToken(t) then Ok(TokenRegex(t), rest) else Fail
  {
    match t
    case Literal(c) => EscapedParses(c, rest);
    case AnyInSegment => NotSlashStarParses(rest);
    case OneInSegment => NotSlashParses(rest);
    case Directories => DirectoriesParses(rest);
    case Everything =>
      assert (".*" + rest)[1..] == "*" + rest && ("*" + rest)[1..] == rest;
    case Bracket(body) => BracketParses(body, rest);
  }

  /** What parsing `g` in front of text that parses as `p` must give. */
  function Before(g: Glob, p: Parsed<Node>): Parsed<Node> {
    if !OrderedGlob(g) then Fail
    else
      match p
      case Ok(k, rest) => Ok(RegexOf(g, k), rest)
      case Fail => Fail
  }

  lemma EmittedStart(g: Glob, rest: string)
    requires WellFormed(g) && !StartsWith(rest, '*')
    ensures !StartsWith(EmitGlob(g) + rest, '*')
  {
    match g
    case End => assert EmitGlob(g) + rest == rest;
    case Item(t, next) => TokenParses(t, "");
    case Group(alternatives, next) =>
  }

  lemma {:induction false} GlobParses(g: Glob, rest: string)
    requires WellFormed(g) && !StartsWith(rest, '*')
    ensures ParseAlternative(EmitGlob(g) + rest) == Before(g, ParseAlternative(rest))
    decreases g
  {
    match g
    case End =>
      assert EmitGlob(g) + rest == rest;
    case Item(t, next) =>
      var tail := EmitGlob(next) + rest;
      EmittedStart(next, rest);
      assert EmitGlob(g) + rest == Emit(t) + tail;
      TokenParses(t, tail);
      GlobParses(next, rest);
      assert (Emit(t) + tail)[0] == Emit(t)[0];
    case Group(alternatives, next) =>
      var tail := EmitGlob(next) + rest;
      EmittedStart(next, rest);
      var inner := EmitAlternatives(alternatives) + (")" + tail);
      Reassociate("(?:", EmitAlternatives(alternatives), ")", EmitGlob(next), rest);
      assert EmitGlob(g) + rest == "(?:" + inner;
      AlternativesParse(alternatives, tail);
      GroupAtomParses(inner, tail);
      GlobParses(next, rest);
  }

  lemma {:induction false} AlternativesParse(alternatives: Alternatives, rest: string)
    requires AllWellFormed(alternatives)
    ensures ParseDisjunction(EmitAlternatives(alternatives) + (")" + rest)) ==
            if AllOrdered(alternatives) then Ok(RegexOfAny(alternatives), ")" + rest) else Fail
    decreases alternatives
  {
    var end := ")" + rest;
    match alternatives
    case Last(g) =>
      GlobParses(g, end);
    case More(g, more) =>
      var tail := EmitAlternatives(more) + end;
      assert EmitAlternatives(alternatives) + end == EmitGlob(g) + ("|" + tail);
      assert ("|" + tail)[1..] == tail;
      GlobParses(g, "|" + tail);
      AlternativesParse(more, rest);
  }

  /** The anchored pattern is one alternative: both anchors bind the whole glob. */
  lemma AnchoredParses(g: Glob)
    requires WellFormed(g)
    ensures ParsePattern("^" + EmitGlob(g) + "$") ==
            if OrderedGlob(g) then Ok(Cat(Bos, RegexOf(g, Cat(Eos, Empty))), "") else Fail
  {
    var body := EmitGlob(g) + "$";
    assert "^" + EmitGlob(g) + "$" == "^" + body;
    assert ("^" + body)[1..] == body && "$"[1..] == "";
    assert ParseTerm("$") == Ok(Eos, "") && ParseAlternative("") == Ok(Empty, "");
    assert ParseAlternative("$") == Ok(Cat(Eos, Empty), "");
    GlobParses(g, "$");
    assert ParseTerm("^" + body) == Ok(Bos, body);
    AnchoredAlternative("^" + body, ParseAlternative(body));
  }

  lemma AnchoredAlternative(pattern: string, body: Parsed<Node>)
    requires StartsWith(pattern, '^') && body == ParseAlternative(pattern[1..]) && (body.Ok? ==> body.rest == "")
    ensures ParsePattern(pattern) == match body case Ok(k, _) => Ok(Cat(Bos, k), "") case Fail => Fail
  {
    assert ParseAlternative(pattern) == match body case Ok(k, rest) => Ok(Cat(Bos, k), rest) case Fail => Fail;
  }

  // ---------------------------------------------------------------- expressions mean what globs mean

  lemma {:induction false} NotSlashStarMatches(s: string, i: nat, j: nat)
    requires i <= j <= |s|
    ensures Matches(Star(Class(true, "/")), s, i, j) <==> '/' !in s[i..j]
    decreases j - i
  {
    var slash := Class(true, "/");
    assert forall c: char :: InRanges("/", c) <==> c == '/';
    if i < j {
      NotSlashStarMatches(s, i + 1, j);
      assert s[i..j] == [s[i]] + s[i + 1..j];
      assert Matches(slash, s, i, i + 1) <==> s[i] != '/';
    }
  }

  lemma {:induction false} DotStarMatches(s: string, i: nat, j: nat)
    requires i <= j <= |s|
    ensures Matches(Star(Dot), s, i, j) <==> NoLineTerminator(s[i..j])
    decreases j - i
  {
    if i < j {
      DotStarMatches(s, i + 1, j);
      assert s[i..j] == [s[i]] + s[i + 1..j];
      assert Matches(Dot, s, i, i + 1) <==> !LineTerminator(s[i]);
    }
  }

  /** One directory name and its slash. */
  lemma DirectoryMatches(s: string, i: nat, j: nat)
    requires i <= j <= |s|
    ensures Matches(TokenRegex(Directories).body, s, i, j) <==> i < j && s[j - 1] == '/' && '/' !in s[i..j - 1]
  {
    var tail := Cat(Char('/'), Empty);
    forall k | i <= k <= j
      ensures Matches(tail, s, k, j) <==> k == j - 1 && s[k] == '/'
    {
      if k == j - 1 && s[k] == '/' {
        assert Matches(Char('/'), s, k, j) && Matches(Empty, s, j, j);
      }
    }
    if i < j {
      NotSlashStarMatches(s, i, j - 1);
    }
  }

  lemma {:induction false} DirectoriesMatches(s: string, i: nat, j: nat)
    requires i <= j <= |s|
    ensures Matches(TokenRegex(Directories), s, i, j) <==> (i == j || s[j - 1] == '/')
    decreases j - i
  {
    var star := TokenRegex(Directories);
    forall k | i < k <= j
      ensures Matches(star.body, s, i, k) <==> s[k - 1] == '/' && '/' !in s[i..k - 1]
      ensures Matches(star, s, k, j) <==> (k == j || s[j - 1] == '/')
    {
      DirectoryMatches(s, i, k);
      DirectoriesMatches(s, k, j);
    }
    if i < j && s[j - 1] == '/' {
      SlashFound(s, i, j - 1);
      IndexOfIsFirst(s, '/', i);
      var k: nat := IndexOf(s, '/', i) + 1;
      assert Matches(star.body, s, i, k) && Matches(star, s, k, j);
    }
  }

  lemma SlashFound(s: string, i: nat, at: nat)
    requires i <= at < |s| && s[at] == '/'
    ensures i <= IndexOf(s, '/', i) <= at
    decreases at - i
  {
  }

  lemma TokenMatches(t: Token, s: string, i: nat, j: nat)
    requires ItemToken(t) && i <= j <= |s|
    ensures Matches(TokenRegex(t), s, i, j) <==> TokenAccepts(t, s[i..j], false)
  {
    assert |s[i..j]| == j - i && (i < j ==> s[i..j][0] == s[i]);
    match t
    case Literal(c) =>
      assert s[i..j] == [c] <==> j == i + 1 && s[i] == c;
    case AnyInSegment => NotSlashStarMatches(s, i, j);
    case OneInSegment =>
      assert forall c: char :: InRanges("/", c) <==> c == '/';
    case Directories => DirectoriesMatches(s, i, j);
    case Everything => DotStarMatches(s, i, j);
    case Bracket(body) =>
  }

  /** `g` and then `k` take `s[i..j]`. */
  ghost predicate TailMatches(g: Glob, k: Node, s: string, i: nat, j: nat)
    requires i <= j <= |s|
  {
    exists m :: i <= m <= j && Accepts(g, s[i..m], false) && Matches(k, s, m, j)
  }

  lemma {:induction false} GlobMatches(g: Glob, k: Node, s: string, i: nat, j: nat)
    requires WellFormed(g) && i <= j <= |s|
    ensures Matches(RegexOf(g, k), s, i, j) <==> TailMatches(g, k, s, i, j)
    decreases g
  {
    match g
    case End =>
      assert s[i..i] == "";
    case Item(t, next) =>
      forall m | i <= m <= j
        ensures Matches(TokenRegex(t), s, i, m) <==> HeadAccepts(g, s[i..m], false)
        ensures Matches(RegexOf(next, k), s, m, j) <==> TailMatches(next, k, s, m, j)
      {
        TokenMatches(t, s, i, m);
        GlobMatches(next, k, s, m, j);
      }
      Splice(g, k, s, i, j);
    case Group(alternatives, next) =>
      forall m | i <= m <= j
        ensures Matches(RegexOfAny(alternatives), s, i, m) <==> HeadAccepts(g, s[i..m], false)
        ensures Matches(RegexOf(next, k), s, m, j) <==> TailMatches(next, k, s, m, j)
      {
        AnyMatches(alternatives, s, i, m);
        GlobMatches(next, k, s, m, j);
      }
      Splice(g, k, s, i, j);
  }

  ghost predicate HeadAccepts(g: Glob, s: string, everything: bool)
    requires !g.End?
  {
    match g
    case Item(t, next) => TokenAccepts(t, s, everything)
    case Group(alternatives, next) => SomeAccepts(alternatives, s, everything)
  }

  /** Cutting `s[i..j]` into head, tail and continuation, in either order. */
  lemma Splice(g: Glob, k: Node, s: string, i: nat, j: nat)
    requires !g.End? && i <= j <= |s|
    ensures TailMatches(g, k, s, i, j) <==>
            exists m :: i <= m <= j && HeadAccepts(g, s[i..m], false) && TailMatches(g.next, k, s, m, j)
  {
    forall n | i <= n <= j
      ensures Accepts(g, s[i..n], false) <==>
              exists m :: i <= m <= n && HeadAccepts(g, s[i..m], false) && Accepts(g.next, s[m..n], false)
    {
      var t := s[i..n];
      forall c | 0 <= c <= |t|
        ensures t[..c] == s[i..i + c] && t[c..] == s[i + c..n]
      {
      }
      if m :| i <= m <= n && HeadAccepts(g, s[i..m], false) && Accepts(g.next, s[m..n], false) {
        assert t[..m - i] == s[i..m] && t[m - i..] == s[m..n];
      }
    }
  }

  lemma {:induction false} AnyMatches(alternatives: Alternatives, s: string, i: nat, j: nat)
    requires AllWellFormed(alternatives) && i <= j <= |s|
    ensures Matches(RegexOfAny(alternatives), s, i, j) <==> SomeAccepts(alternatives, s[i..j], false)
    decreases alternatives
  {
    var g := if alternatives.Last? then alternatives.only else alternatives.head;
    GlobMatches(g, Empty, s, i, j);
    if alternatives.More? {
      AnyMatches(alternatives.tail, s, i, j);
    }
  }

  lemma EndMatches(s: string, i: nat, j: nat)
    requires i <= j <= |s|
    ensures Matches(Cat(Eos, Empty), s, i, j) <==> i == j == |s|
  {
    assert Matches(Cat(Eos, Empty), s, i, j) <==>
           exists m :: i <= m <= j && Matches(Eos, s, i, m) && Matches(Empty, s, m, j);
    if i == j == |s| {
      assert Matches(Eos, s, i, i) && Matches(Empty, s, i, j);
    }
  }

  lemma AnchoredMatches(g: Glob, s: string)
    requires WellFormed(g)
    ensures Test(Cat(Bos, RegexOf(g, Cat(Eos, Empty))), s) <==> Accepts(g, s, false)
  {
    var tail := Cat(Eos, Empty);
    var body := RegexOf(g, tail);
    assert s[0..|s|] == s;
    forall i: nat, j: nat | i <= j <= |s|
      ensures Matches(Cat(Bos, body), s, i, j) <==> i == 0 && j == |s| && Accepts(g, s, false)
    {
      assert Matches(Cat(Bos, body), s, i, j) <==>
             exists m :: i <= m <= j && Matches(Bos, s, i, m) && Matches(body, s, m, j);
      forall m | i <= m <= j
        ensures Matches(tail, s, m, j) <==> m == j == |s|
      {
        EndMatches(s, m, j);
      }
      GlobMatches(g, tail, s, i, j);
      if i == 0 && j == |s| && Accepts(g, s, false) {
        EndMatches(s, j, j);
        assert Matches(Bos, s, 0, 0) && Matches(body, s, 0, j);
      }
    }
    assert Matches(Cat(Bos, body), s, 0, |s|) <==> Accepts(g, s, false);
  }
}
