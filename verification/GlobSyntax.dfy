/**
 * src/core/glob-match.ts, lines 10 to 69: globs as tokens, the text they are
 * translated to, and their own meaning, which `Accepts` gives on the syntax
 * tree and no regular expression is needed for.
 */
module GlobSyntax {
  import opened RegExp
  import opened Wrappers

  // ---------------------------------------------------------------- tokens

  datatype Token =
    | Literal(c: char)
    | AnyInSegment          // *
    | OneInSegment          // ?
    | Directories           // a whole segment ** and its slash
    | Everything            // a whole final segment **
    | Bracket(body: string) // [body]
    | Open
    | Comma
    | Close

  /** `text.indexOf(c, from)` */
  function IndexOf(text: string, c: char, from: nat): (r: int)
    ensures r == -1 || from <= r < |text|
    decreases |text| - from
  {
    if from >= |text| then -1
    else if text[from] == c then from
    else IndexOf(text, c, from + 1)
  }

  lemma {:induction false} IndexOfIsFirst(text: string, c: char, from: nat)
    requires IndexOf(text, c, from) != -1
    ensures var r := IndexOf(text, c, from); text[r] == c && c !in text[from..r]
    decreases |text| - from
  {
    if text[from] != c {
      IndexOfIsFirst(text, c, from + 1);
      var r := IndexOf(text, c, from);
      assert text[from..r] == [text[from]] + text[from + 1..r];
    }
  }

  /** The token at `i`, and how many characters it takes. */
  function ReadToken(glob: string, i: nat, depth: nat): (r: (Token, nat))
    requires i < |glob|
    ensures 1 <= r.1 <= |glob| - i
  {
    var c := glob[i];
    if c == '*' then
      var segmentStart := i == 0 || glob[i - 1] == '/';
      if i + 1 < |glob| && glob[i + 1] == '*' && segmentStart && (i + 2 == |glob| || glob[i + 2] == '/') then
        if i + 2 < |glob| then (Directories, 3) else (Everything, 2)
      else
        (AnyInSegment, 1)
    else if c == '?' then (OneInSegment, 1)
    else if c == '{' then (Open, 1)
    else if c == '}' && depth > 0 then (Close, 1)
    else if c == ',' && depth > 0 then (Comma, 1)
    else if c == '[' && IndexOf(glob, ']', i + 1) > i + 1 then
      var close := IndexOf(glob, ']', i + 1);
      (Bracket(glob[i + 1..close]), close - i + 1)
    else (Literal(c), 1)
  }

  function DepthAfter(t: Token, depth: nat): nat {
    if t.Open? then depth + 1
    else if t.Close? && depth > 0 then depth - 1
    else depth
  }

  function Tokens(glob: string, i: nat, depth: nat): seq<Token>
    requires i <= |glob|
    decreases |glob| - i
  {
    if i == |glob| then []
    else
      var (t, width) := ReadToken(glob, i, depth);
      [t] + Tokens(glob, i + width, DepthAfter(t, depth))
  }

  /** Brace depth at the end of the glob. */
  function FinalDepth(glob: string, i: nat, depth: nat): nat
    requires i <= |glob|
    decreases |glob| - i
  {
    if i == |glob| then depth
    else
      var (t, width) := ReadToken(glob, i, depth);
      FinalDepth(glob, i + width, DepthAfter(t, depth))
  }

  // ---------------------------------------------------------------- emitted text

  function EscapeRegExp(c: char): string {
    if c in ".+^${}()|[]\\" then ['\\', c] else [c]
  }

  function DoubleBackslashes(s: string): string {
    if s == "" then ""
    else (if s[0] == '\\' then "\\\\" else [s[0]]) + DoubleBackslashes(s[1..])
  }

  function EmitBracket(body: string): string {
    var escaped := DoubleBackslashes(body);
    "[" + (if escaped != "" && escaped[0] == '!' then "^" + escaped[1..] else escaped) + "]"
  }

  function Emit(t: Token): string {
    match t
    case Literal(c) => EscapeRegExp(c)
    case AnyInSegment => "[^/]*"
    case OneInSegment => "[^/]"
    case Directories => "(?:[^/]*/)*"
    case Everything => ".*"
    case Bracket(body) => EmitBracket(body)
    case Open => "(?:"
    case Comma => "|"
    case Close => ")"
  }

  function EmitAll(ts: seq<Token>): string {
    if ts == [] then "" else Emit(ts[0]) + EmitAll(ts[1..])
  }

  /** The text in the end, when `pattern` has been emitted before `i`. */
  function Completed(glob: string, i: nat, depth: nat, pattern: string): string
    requires i <= |glob|
  {
    pattern + EmitAll(Tokens(glob, i, depth))
  }

  lemma EmitCons(t: Token, rest: seq<Token>, prefix: string)
    ensures prefix + EmitAll([t] + rest) == (prefix + Emit(t)) + EmitAll(rest)
  {
    assert ([t] + rest)[1..] == rest;
  }

  lemma TokensStep(glob: string, i: nat, depth: nat, pattern: string)
    requires i < |glob|
    ensures var (t, width) := ReadToken(glob, i, depth);
            && Completed(glob, i, depth, pattern) == Completed(glob, i + width, DepthAfter(t, depth), pattern + Emit(t))
            && FinalDepth(glob, i, depth) == FinalDepth(glob, i + width, DepthAfter(t, depth))
  {
    var (t, width) := ReadToken(glob, i, depth);
    var rest := Tokens(glob, i + width, DepthAfter(t, depth));
    assert Tokens(glob, i, depth) == [t] + rest;
    EmitCons(t, rest, pattern);
  }

  /** The body of the loop in `translate`: text to append, next index, new brace depth. */
  method TranslateAt(glob: string, index: nat, depth: nat) returns (text: string, next: nat, inner: nat)
    requires index < |glob|
    ensures var (t, width) := ReadToken(glob, index, depth);
            text == Emit(t) && next == index + width && inner == DepthAfter(t, depth)
  {
    var c := glob[index];
    inner := depth;
    next := index + 1;
    if c == '*' {
      var segmentStart := index == 0 || glob[index - 1] == '/';
      if index + 1 < |glob| && glob[index + 1] == '*' && segmentStart
         && (index + 2 == |glob| || glob[index + 2] == '/') {
        if index + 2 < |glob| {
          text := "(?:[^/]*/)*";
          next := index + 3;
        } else {
          text := ".*";
          next := index + 2;
        }
      } else {
        text := "[^/]*";
      }
    } else if c == '?' {
      text := "[^/]";
    } else if c == '{' {
      inner := depth + 1;
      text := "(?:";
    } else if c == '}' && depth > 0 {
      inner := depth - 1;
      text := ")";
    } else if c == ',' && depth > 0 {
      text := "|";
    } else {
      var close := if c == '[' then IndexOf(glob, ']', index + 1) else -1;
      if close > index + 1 {
        text := EmitBracket(glob[index + 1..close]);
        next := close + 1;
      } else {
        text := EscapeRegExp(c);
      }
    }
  }

  /** `translate`: pattern text, or nothing when a brace group stays open. */
  method Translate(glob: string) returns (r: Result<string, ()>)
    ensures r.Success? <==> FinalDepth(glob, 0, 0) == 0
    ensures r.Success? ==> r.value == EmitAll(Tokens(glob, 0, 0))
  {
    var pattern := "";
    var depth := 0;
    var index := 0;
    while index < |glob|
      invariant 0 <= index <= |glob| && depth >= 0
      invariant Completed(glob, index, depth, pattern) == Completed(glob, 0, 0, "")
      invariant FinalDepth(glob, index, depth) == FinalDepth(glob, 0, 0)
    {
      TokensStep(glob, index, depth, pattern);
      var text;
      text, index, depth := TranslateAt(glob, index, depth);
      pattern := pattern + text;
    }
    assert pattern + EmitAll([]) == pattern;
    r := if depth != 0 then Failure(()) else Success(pattern);
  }

  // ---------------------------------------------------------------- meaning

  datatype Glob =
    | End
    | Item(token: Token, next: Glob)
    | Group(alternatives: Alternatives, next: Glob)

  datatype Alternatives =
    | Last(only: Glob)
    | More(head: Glob, tail: Alternatives)

  function Negated(body: string): bool {
    body != "" && (body[0] == '!' || body[0] == '^')
  }

  function Members(body: string): string {
    if Negated(body) then body[1..] else body
  }

  ghost predicate NoLineTerminator(s: string) {
    forall c <- s :: !LineTerminator(c)
  }

  /**
   * Glob `g` describes exactly the path text `s`. With `everything` the final
   * `**` takes any text, as documented; without it, any text on one line.
   */
  ghost predicate Accepts(g: Glob, s: string, everything: bool)
    decreases g
  {
    match g
    case End => s == ""
    case Group(alternatives, next) =>
      exists k :: 0 <= k <= |s| && SomeAccepts(alternatives, s[..k], everything) && Accepts(next, s[k..], everything)
    case Item(t, next) =>
      exists k :: 0 <= k <= |s| && TokenAccepts(t, s[..k], everything) && Accepts(next, s[k..], everything)
  }

  ghost predicate SomeAccepts(alternatives: Alternatives, s: string, everything: bool)
    decreases alternatives
  {
    match alternatives
    case Last(g) => Accepts(g, s, everything)
    case More(g, rest) => Accepts(g, s, everything) || SomeAccepts(rest, s, everything)
  }

  ghost predicate TokenAccepts(t: Token, s: string, everything: bool) {
    match t
    case Literal(c) => s == [c]
    case AnyInSegment => '/' !in s
    case OneInSegment => |s| == 1 && s[0] != '/'
    case Directories => s == "" || s[|s| - 1] == '/'
    case Everything => everything || NoLineTerminator(s)
    case Bracket(body) => |s| == 1 && InRanges(Members(body), s[0]) != Negated(body)
    case _ => false
  }

  /** The syntax tree: items up to the end, a comma or a closing brace. */
  function ParseItems(ts: seq<Token>): (r: Option<(Glob, seq<Token>)>)
    ensures r.Some? ==> |r.value.1| <= |ts|
    decreases |ts|, 1
  {
    if ts == [] || ts[0].Comma? || ts[0].Close? then Some((End, ts))
    else if ts[0].Open? then
      match ParseGroup(ts[1..])
      case None => None
      case Some((alternatives, rest)) =>
        match ParseItems(rest)
        case None => None
        case Some((next, rest')) => Some((Group(alternatives, next), rest'))
    else
      match ParseItems(ts[1..])
      case None => None
      case Some((next, rest)) => Some((Item(ts[0], next), rest))
  }

  /** Comma-separated alternatives and the closing brace. */
  function ParseGroup(ts: seq<Token>): (r: Option<(Alternatives, seq<Token>)>)
    ensures r.Some? ==> |r.value.1| <= |ts|
    decreases |ts|, 2
  {
    match ParseItems(ts)
    case None => None
    case Some((g, rest)) =>
      if rest == [] then None
      else if rest[0].Close? then Some((Last(g), rest[1..]))
      else
        match ParseGroup(rest[1..])
        case None => None
        case Some((tail, rest')) => Some((More(g, tail), rest'))
  }

  /** The tree of a whole glob; nothing when a brace group stays open. */
  function ParseGlob(glob: string): Option<Glob> {
    match ParseItems(Tokens(glob, 0, 0))
    case Some((g, rest)) => if rest == [] then Some(g) else None
    case None => None
  }

  // ---------------------------------------------------------------- tokens and trees

  /** Braces match and commas stand inside them, starting `depth` groups deep. */
  predicate WellNested(ts: seq<Token>, depth: nat) {
    if ts == [] then depth == 0
    else if ts[0].Comma? then depth > 0 && WellNested(ts[1..], depth)
    else if ts[0].Close? then depth > 0 && WellNested(ts[1..], depth - 1)
    else WellNested(ts[1..], if ts[0].Open? then depth + 1 else depth)
  }

  lemma {:induction false} TokensWellNested(glob: string, i: nat, depth: nat)
    requires i <= |glob|
    ensures WellNested(Tokens(glob, i, depth), depth) <==> FinalDepth(glob, i, depth) == 0
    decreases |glob| - i
  {
    if i < |glob| {
      var (t, width) := ReadToken(glob, i, depth);
      TokensWellNested(glob, i + width, DepthAfter(t, depth));
    }
  }

  lemma {:induction false} ItemsParse(ts: seq<Token>, depth: nat)
    ensures WellNested(ts, depth) ==> ParseItems(ts).Some?
    ensures ParseItems(ts).Some? ==>
      var rest := ParseItems(ts).value.1;
      (rest == [] || rest[0].Comma? || rest[0].Close?) && (WellNested(ts, depth) <==> WellNested(rest, depth))
    decreases |ts|, 1
  {
    if ts != [] && ts[0].Open? {
      GroupParses(ts[1..], depth + 1);
      if ParseGroup(ts[1..]).Some? {
        ItemsParse(ParseGroup(ts[1..]).value.1, depth);
      }
    } else if ts != [] && !ts[0].Comma? && !ts[0].Close? {
      ItemsParse(ts[1..], depth);
    }
  }

  lemma {:induction false} GroupParses(ts: seq<Token>, depth: nat)
    requires depth > 0
    ensures WellNested(ts, depth) ==> ParseGroup(ts).Some?
    ensures ParseGroup(ts).Some? ==> (WellNested(ts, depth) <==> WellNested(ParseGroup(ts).value.1, depth - 1))
    decreases |ts|, 2
  {
    ItemsParse(ts, depth);
    if ParseItems(ts).Some? {
      var rest := ParseItems(ts).value.1;
      if rest != [] && rest[0].Comma? {
        GroupParses(rest[1..], depth);
      }
    }
  }

  /** A glob has a syntax tree exactly when the translator accepts it. */
  lemma ParsesIffClosed(glob: string)
    ensures ParseGlob(glob).Some? <==> FinalDepth(glob, 0, 0) == 0
  {
    TokensWellNested(glob, 0, 0);
    ItemsParse(Tokens(glob, 0, 0), 0);
  }

  predicate GoodToken(t: Token) {
    && (t.Bracket? ==> t.body != "" && ']' !in t.body)
    && (t.Literal? ==> t.c != '*' && t.c != '?')
  }

  predicate ItemToken(t: Token) {
    !t.Open? && !t.Comma? && !t.Close? && GoodToken(t)
  }

  predicate WellFormed(g: Glob) {
    match g
    case End => true
    case Item(t, next) => ItemToken(t) && WellFormed(next)
    case Group(alternatives, next) => AllWellFormed(alternatives) && WellFormed(next)
  }

  predicate AllWellFormed(alternatives: Alternatives) {
    match alternatives
    case Last(g) => WellFormed(g)
    case More(g, rest) => WellFormed(g) && AllWellFormed(rest)
  }

  function EmitGlob(g: Glob): string {
    match g
    case End => ""
    case Item(t, next) => Emit(t) + EmitGlob(next)
    case Group(alternatives, next) => "(?:" + (EmitAlternatives(alternatives) + (")" + EmitGlob(next)))
  }

  function EmitAlternatives(alternatives: Alternatives): string {
    match alternatives
    case Last(g) => EmitGlob(g)
    case More(g, rest) => EmitGlob(g) + ("|" + EmitAlternatives(rest))
  }

  predicate GoodTokens(ts: seq<Token>) {
    forall t <- ts :: GoodToken(t)
  }

  lemma {:induction false} TokensAreGood(glob: string, i: nat, depth: nat)
    requires i <= |glob|
    ensures GoodTokens(Tokens(glob, i, depth))
    decreases |glob| - i
  {
    if i < |glob| {
      var (t, width) := ReadToken(glob, i, depth);
      if t.Bracket? {
        IndexOfIsFirst(glob, ']', i + 1);
      }
      TokensAreGood(glob, i + width, DepthAfter(t, depth));
    }
  }

  lemma Reassociate(x: string, a: string, y: string, g: string, r: string)
    ensures x + (a + (y + (g + r))) == (x + (a + (y + g))) + r
    ensures a + (y + (g + r)) == (a + (y + g)) + r
    ensures y + (g + r) == (y + g) + r
  {
  }

  lemma {:induction false} ItemsEmitted(ts: seq<Token>)
    requires GoodTokens(ts) && ParseItems(ts).Some?
    ensures var (g, rest) := ParseItems(ts).value;
            GoodTokens(rest) && WellFormed(g) && EmitAll(ts) == EmitGlob(g) + EmitAll(rest)
    decreases |ts|, 1
  {
    if ts != [] && ts[0].Open? {
      GroupEmitted(ts[1..]);
      var (alternatives, after) := ParseGroup(ts[1..]).value;
      ItemsEmitted(after);
      var (next, rest) := ParseItems(after).value;
      Reassociate("(?:", EmitAlternatives(alternatives), ")", EmitGlob(next), EmitAll(rest));
      assert EmitAll(ts) == "(?:" + EmitAll(ts[1..]);
    } else if ts != [] && !ts[0].Comma? && !ts[0].Close? {
      ItemsEmitted(ts[1..]);
      var (next, rest) := ParseItems(ts[1..]).value;
      assert EmitAll(ts) == Emit(ts[0]) + EmitAll(ts[1..]);
      Reassociate("", "", Emit(ts[0]), EmitGlob(next), EmitAll(rest));
    } else {
      assert EmitGlob(End) + EmitAll(ts) == EmitAll(ts);
    }
  }

  lemma {:induction false} GroupEmitted(ts: seq<Token>)
    requires GoodTokens(ts) && ParseGroup(ts).Some?
    ensures var (alternatives, rest) := ParseGroup(ts).value;
            && GoodTokens(rest) && AllWellFormed(alternatives)
            && EmitAll(ts) == EmitAlternatives(alternatives) + (")" + EmitAll(rest))
    decreases |ts|, 2
  {
    ItemsEmitted(ts);
    var (g, rest) := ParseItems(ts).value;
    ItemsParse(ts, 0);
    assert EmitAll(rest) == Emit(rest[0]) + EmitAll(rest[1..]);
    if rest[0].Comma? {
      GroupEmitted(rest[1..]);
      var (tail, rest') := ParseGroup(rest[1..]).value;
      Reassociate("", EmitGlob(g), "|", EmitAlternatives(tail), ")" + EmitAll(rest'));
    }
  }
}
