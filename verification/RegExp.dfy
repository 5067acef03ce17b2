/**
 * The part of ECMAScript regular expressions that the glob compiler emits:
 * the pattern grammar (ECMA-262 section 22.2.1) as a recursive-descent parser
 * and the matching semantics (section 22.2.2) as a relation between positions.
 *
 * Patterns are compiled without flags, so matching works on single code units
 * and `.` refuses line terminators.
 */
module RegExp {

  datatype Node =
    | Empty
    | Char(c: char)
    | Dot
    | Class(negated: bool, members: string)
    | Cat(first: Node, second: Node)
    | Or(left: Node, right: Node)
    | Star(body: Node)
    | Bos
    | Eos

  datatype Parsed<+T> = Fail | Ok(value: T, rest: string)

  predicate SyntaxCharacter(c: char) {
    c in "^$\\.*+?()[]{}|"
  }

  predicate LineTerminator(c: char) {
    c == '\n' || c == '\r' || c == '\U{2028}' || c == '\U{2029}'
  }

  /** Class contents, with `a-b` read as a range wherever an atom follows the dash. */
  predicate InRanges(members: string, c: char) {
    if |members| >= 3 && members[1] == '-' then
      members[0] <= c <= members[2] || InRanges(members[3..], c)
    else
      members != "" && (c == members[0] || InRanges(members[1..], c))
  }

  /** A descending range is a syntax error. */
  predicate Ordered(members: string) {
    if |members| >= 3 && members[1] == '-' then
      members[0] <= members[2] && Ordered(members[3..])
    else
      members == "" || Ordered(members[1..])
  }

  /** Node `n` can consume exactly `s[i..j]`; an iteration of `*` may not be empty. */
  ghost predicate Matches(n: Node, s: string, i: nat, j: nat)
    requires i <= j <= |s|
    decreases n, j - i
  {
    match n
    case Empty => i == j
    case Char(c) => j == i + 1 && s[i] == c
    case Dot => j == i + 1 && !LineTerminator(s[i])
    case Class(negated, members) => j == i + 1 && InRanges(members, s[i]) != negated
    case Cat(a, b) => exists k :: i <= k <= j && Matches(a, s, i, k) && Matches(b, s, k, j)
    case Or(a, b) => Matches(a, s, i, j) || Matches(b, s, i, j)
    case Star(a) => i == j || exists k :: i < k <= j && Matches(a, s, i, k) && Matches(n, s, k, j)
    case Bos => i == j == 0
    case Eos => i == j == |s|
  }

  /** `regex.test(s)`: a match may start and stop anywhere. */
  ghost predicate Test(n: Node, s: string) {
    exists i: nat, j: nat :: i <= j <= |s| && Matches(n, s, i, j)
  }

  /** `new RegExp(pattern)`: the whole pattern is one Disjunction. */
  function ParsePattern(pattern: string): Parsed<Node> {
    match ParseDisjunction(pattern)
    case Ok(n, rest) => if rest == "" then Ok(n, "") else Fail
    case Fail => Fail
  }

  function ParseDisjunction(s: string): (r: Parsed<Node>)
    ensures r.Ok? ==> |r.rest| <= |s|
    decreases |s|, 3
  {
    match ParseAlternative(s)
    case Fail => Fail
    case Ok(a, rest) =>
      if rest != "" && rest[0] == '|' then
        match ParseDisjunction(rest[1..])
        case Ok(b, rest') => Ok(Or(a, b), rest')
        case Fail => Fail
      else
        Ok(a, rest)
  }

  function ParseAlternative(s: string): (r: Parsed<Node>)
    ensures r.Ok? ==> |r.rest| <= |s|
    decreases |s|, 2
  {
    if s == "" || s[0] == '|' || s[0] == ')' then
      Ok(Empty, s)
    else
      match ParseTerm(s)
      case Fail => Fail
      case Ok(t, rest) =>
        match ParseAlternative(rest)
        case Ok(k, rest') => Ok(Cat(t, k), rest')
        case Fail => Fail
  }

  function ParseTerm(s: string): (r: Parsed<Node>)
    requires s != ""
    ensures r.Ok? ==> |r.rest| < |s|
    decreases |s|, 1
  {
    if s[0] == '^' then Ok(Bos, s[1..])
    else if s[0] == '$' then Ok(Eos, s[1..])
    else
      match ParseAtom(s)
      case Fail => Fail
      case Ok(a, rest) =>
        if rest != "" && rest[0] == '*' then Ok(Star(a), rest[1..]) else Ok(a, rest)
  }

  function ParseAtom(s: string): (r: Parsed<Node>)
    requires s != ""
    ensures r.Ok? ==> |r.rest| < |s|
    decreases |s|, 0
  {
    if s[0] == '.' then
      Ok(Dot, s[1..])
    else if s[0] == '\\' then
      if |s| >= 2 && SyntaxCharacter(s[1]) then Ok(Char(s[1]), s[2..]) else Fail
    else if s[0] == '(' then
      if |s| >= 3 && s[1] == '?' && s[2] == ':' then
        match ParseDisjunction(s[3..])
        case Ok(d, rest) => if rest != "" && rest[0] == ')' then Ok(d, rest[1..]) else Fail
        case Fail => Fail
      else
        Fail
    else if s[0] == '[' then
      ParseClass(s[1..])
    else if SyntaxCharacter(s[0]) then
      Fail
    else
      Ok(Char(s[0]), s[1..])
  }

  /** The text after `[`, up to and including the closing `]`. */
  function ParseClass(s: string): (r: Parsed<Node>)
    ensures r.Ok? ==> |r.rest| < |s|
  {
    var negated := s != "" && s[0] == '^';
    match ParseClassAtoms(if negated then s[1..] else s)
    case Ok(members, rest) => if Ordered(members) then Ok(Class(negated, members), rest) else Fail
    case Fail => Fail
  }

  function ParseClassAtoms(s: string): (r: Parsed<string>)
    ensures r.Ok? ==> |r.rest| < |s|
  {
    if s == "" then Fail
    else if s[0] == ']' then Ok("", s[1..])
    else if s[0] == '\\' && (|s| < 2 || s[1] != '\\') then Fail
    else
      match ParseClassAtoms(if s[0] == '\\' then s[2..] else s[1..])
      case Ok(members, rest) => Ok([s[0]] + members, rest)
      case Fail => Fail
  }
}
