/**
 * `canonicalize` in benchmarks/computer-use-flow-performance/canonical.ts: the
 * sorted-key JSON text that evidence digests and run signatures are computed
 * from. Two values must share a text exactly when they are the same value.
 */
module CanonicalJson {
  import opened Wrappers

  /** The finite numbers other than negative zero are named by naturals, zero by 0. */
  datatype Number = Finite(name: nat) | NegativeZero | NotFinite

  datatype Field = Field(key: string, value: Value)

  /** `Undefined` is not JSON, but object properties can hold it. */
  datatype Value =
    | Null
    | Bool(b: bool)
    | Num(n: Number)
    | Str(s: string)
    | Arr(items: seq<Value>)
    | Obj(fields: seq<Field>) // in the order `Object.entries` gives them
    | Undefined

  datatype Problem = NonFiniteNumber | UndefinedProperty | NotAValue

  /** What the host supplies: `before(a, b)` is `a.localeCompare(b) < 0`, `numeral` prints a finite number. */
  datatype Host = Host(before: (string, string) -> bool, numeral: nat -> string)

  // ---------------------------------------------------------------- the printer

  function HexDigit(d: nat): char
    requires d < 16
  {
    if d < 10 then ('0' as int + d) as char else ('a' as int + d - 10) as char
  }

  function EscapeChar(c: char): string {
    if c == '\"' then "\\\""
    else if c == '\\' then "\\\\"
    else if c as int == 8 then "\\b"
    else if c as int == 9 then "\\t"
    else if c as int == 10 then "\\n"
    else if c as int == 12 then "\\f"
    else if c as int == 13 then "\\r"
    else if (c as int) < 32 then "\\u00" + [HexDigit(c as int / 16), HexDigit(c as int % 16)]
    else [c]
  }

  function Escape(s: string): string {
    if s == "" then "" else EscapeChar(s[0]) + Escape(s[1..])
  }

  /** `JSON.stringify` of a string */
  function Quote(s: string): string {
    "\"" + Escape(s) + "\""
  }

  /** `texts.join(",")` */
  function Join(texts: seq<string>): string {
    if texts == [] then ""
    else if |texts| == 1 then texts[0]
    else texts[0] + "," + Join(texts[1..])
  }

  function Insert(sorted: seq<Field>, field: Field, before: (string, string) -> bool): seq<Field> {
    if sorted == [] || !before(field.key, sorted[|sorted| - 1].key) then sorted + [field]
    else Insert(sorted[..|sorted| - 1], field, before) + [sorted[|sorted| - 1]]
  }

  /** `Array.prototype.sort`, which is stable, on the keys. */
  function Sort(fields: seq<Field>, before: (string, string) -> bool): seq<Field> {
    if fields == [] then []
    else Insert(Sort(fields[..|fields| - 1], before), fields[|fields| - 1], before)
  }

  lemma {:induction false} InsertKeeps(sorted: seq<Field>, field: Field, before: (string, string) -> bool)
    ensures multiset(Insert(sorted, field, before)) == multiset(sorted) + multiset{field}
  {
    if sorted != [] && before(field.key, sorted[|sorted| - 1].key) {
      InsertKeeps(sorted[..|sorted| - 1], field, before);
      assert sorted == sorted[..|sorted| - 1] + [sorted[|sorted| - 1]];
    }
  }

  lemma {:induction false} SortKeeps(fields: seq<Field>, before: (string, string) -> bool)
    ensures multiset(Sort(fields, before)) == multiset(fields)
  {
    if fields != [] {
      var (init, last) := (fields[..|fields| - 1], fields[|fields| - 1]);
      SortKeeps(init, before);
      InsertKeeps(Sort(init, before), last, before);
      LastCounts(fields, init, last);
    }
  }

  lemma LastCounts(fields: seq<Field>, init: seq<Field>, last: Field)
    requires fields != [] && init == fields[..|fields| - 1] && last == fields[|fields| - 1]
    ensures multiset(fields) == multiset(init) + multiset{last}
  {
    assert fields == init + [last];
  }

  lemma SortMembers(fields: seq<Field>, before: (string, string) -> bool)
    ensures forall f :: f in Sort(fields, before) <==> f in fields
  {
    SortKeeps(fields, before);
    forall f
      ensures f in Sort(fields, before) <==> f in fields
    {
      assert f in Sort(fields, before) <==> f in multiset(Sort(fields, before));
      assert f in fields <==> f in multiset(fields);
    }
  }

  lemma SortedBelow(v: Value, before: (string, string) -> bool)
    requires v.Obj?
    ensures forall i :: 0 <= i < |Sort(v.fields, before)| ==> Sort(v.fields, before)[i].value < v
  {
    SortMembers(v.fields, before);
    forall i | 0 <= i < |Sort(v.fields, before)|
      ensures Sort(v.fields, before)[i].value < v
    {
      assert Sort(v.fields, before)[i] in v.fields;
    }
  }

  function Canonicalize(v: Value, host: Host): Result<string, Problem>
    decreases v, 1, 0
  {
    match v
    case Null => Success("null")
    case Bool(b) => Success(if b then "true" else "false")
    case Str(s) => Success(Quote(s))
    case Num(n) =>
      (match n
       case Finite(name) => Success(host.numeral(name))
       case NegativeZero => Success(host.numeral(0))
       case NotFinite => Failure(NonFiniteNumber))
    case Arr(items) =>
      (match CanonicalItems(items, v, host)
       case Success(texts) => Success("[" + Join(texts) + "]")
       case Failure(problem) => Failure(problem))
    case Obj(fields) =>
      SortedBelow(v, host.before);
      (match CanonicalFields(Sort(fields, host.before), v, host)
       case Success(texts) => Success("{" + Join(texts) + "}")
       case Failure(problem) => Failure(problem))
    case Undefined => Failure(NotAValue)
  }

  function CanonicalItems(items: seq<Value>, whole: Value, host: Host): Result<seq<string>, Problem>
    requires forall i :: 0 <= i < |items| ==> items[i] < whole
    decreases whole, 0, |items|
  {
    if items == [] then Success([])
    else
      match Canonicalize(items[0], host)
      case Failure(problem) => Failure(problem)
      case Success(text) =>
        match CanonicalItems(items[1..], whole, host)
        case Failure(problem) => Failure(problem)
        case Success(texts) => Success([text] + texts)
  }

  function CanonicalFields(fields: seq<Field>, whole: Value, host: Host): Result<seq<string>, Problem>
    requires forall i :: 0 <= i < |fields| ==> fields[i].value < whole
    decreases whole, 0, |fields|
  {
    if fields == [] then Success([])
    else if fields[0].value.Undefined? then Failure(UndefinedProperty)
    else
      match Canonicalize(fields[0].value, host)
      case Failure(problem) => Failure(problem)
      case Success(text) =>
        match CanonicalFields(fields[1..], whole, host)
        case Failure(problem) => Failure(problem)
        case Success(texts) => Success([Quote(fields[0].key) + ":" + text] + texts)
  }

  // ---------------------------------------------------------------- texts that cannot be confused

  predicate NumeralChar(c: char) {
    '0' <= c <= '9' || c in {'-', '+', '.', 'e', 'E'}
  }

  /** What JSON.stringify of finite numbers is known for: distinct numbers have distinct decimal texts. */
  ghost predicate Legible(host: Host) {
    && (forall n :: NumeralText(host.numeral(n)))
    && (forall m, n :: host.numeral(m) == host.numeral(n) ==> m == n)
  }

  predicate NumeralText(text: string) {
    text != "" && (text[0] == '-' || '0' <= text[0] <= '9') && forall i :: 0 <= i < |text| ==> NumeralChar(text[i])
  }

  /** `whole` could be read as `part` and something after it. */
  predicate Stops(part: string, whole: string) {
    part < whole && !NumeralChar(whole[|part|])
  }

  predicate Apart(p: string, q: string) {
    !Stops(p, q) && !Stops(q, p)
  }

  /** What may follow a value: nothing, or a character that no number goes on with. */
  predicate Follows(rest: string) {
    rest == "" || !NumeralChar(rest[0])
  }

  lemma Separate(p: string, q: string, x: string, y: string)
    requires Apart(p, q) && Follows(x) && Follows(y) && p + x == q + y
    ensures p == q && x == y
  {
    var all := p + x;
    assert p == all[..|p|] && q == all[..|q|];
    assert x == all[|p|..] && y == all[|q|..];
  }

  lemma EscapeCharUnique(c: char, d: char, x: string, y: string)
    requires EscapeChar(c) + x == EscapeChar(d) + y
    ensures c == d && x == y
  {
    var (p, q) := (EscapeChar(c), EscapeChar(d));
    assert (p + x)[0] == p[0] && (q + y)[0] == q[0];
    if p[0] == '\\' {
      assert (p + x)[1] == p[1] && (q + y)[1] == q[1];
      if p[1] == 'u' {
        assert (p + x)[4] == p[4] && (q + y)[4] == q[4];
        assert (p + x)[5] == p[5] && (q + y)[5] == q[5];
      }
    }
    assert c == d;
    assert x == (p + x)[|p|..] && y == (q + y)[|p|..];
  }

  /** What follows the opening quote of a string. */
  function Closing(s: string, x: string): string {
    Escape(s) + "\"" + x
  }

  lemma Regroup(a: string, b: string, c: string, d: string)
    ensures a + b + c + d == a + (b + c + d)
  {
  }

  lemma EscapedHead(c: char)
    ensures EscapeChar(c) != "" && EscapeChar(c)[0] != '\"'
  {
  }

  lemma ClosingHead(s: string, x: string)
    ensures s == "" ==> Closing(s, x)[0] == '\"' && Closing(s, x)[1..] == x
    ensures s != "" ==> Closing(s, x) == EscapeChar(s[0]) + Closing(s[1..], x) && Closing(s, x)[0] != '\"'
  {
    if s != "" {
      Regroup(EscapeChar(s[0]), Escape(s[1..]), "\"", x);
      EscapedHead(s[0]);
    }
  }

  lemma {:induction false} ClosingUnique(s: string, t: string, x: string, y: string)
    requires Closing(s, x) == Closing(t, y)
    ensures s == t && x == y
  {
    ClosingHead(s, x);
    ClosingHead(t, y);
    if s != "" && t != "" {
      EscapeCharUnique(s[0], t[0], Closing(s[1..], x), Closing(t[1..], y));
      ClosingUnique(s[1..], t[1..], x, y);
      assert s == [s[0]] + s[1..] && t == [t[0]] + t[1..];
    }
  }

  /** A quoted string can be read in only one way. */
  lemma QuoteUnique(s: string, t: string, x: string, y: string)
    requires Quote(s) + x == Quote(t) + y
    ensures s == t && x == y
  {
    assert Closing(s, x) == (Quote(s) + x)[1..];
    assert Closing(t, y) == (Quote(t) + y)[1..];
    ClosingUnique(s, t, x, y);
  }

  predicate Opens(text: string) {
    text != "" && text[0] !in {']', '}'}
  }

  function List(texts: seq<string>, close: char, x: string): string {
    Join(texts) + [close] + x
  }

  /** What follows the first element. */
  function More(texts: seq<string>, close: char, x: string): string
    requires texts != []
  {
    if |texts| == 1 then [close] + x else "," + List(texts[1..], close, x)
  }

  lemma ListHead(texts: seq<string>, close: char, x: string)
    ensures texts == [] ==> List(texts, close, x) == [close] + x
    ensures texts != [] ==> List(texts, close, x) == texts[0] + More(texts, close, x)
    ensures texts != [] && texts[0] != "" ==> List(texts, close, x)[0] == texts[0][0]
  {
  }

  lemma {:induction false} ListUnique(a: seq<string>, b: seq<string>, close: char, x: string, y: string)
    requires close in {']', '}'}
    requires forall i :: 0 <= i < |a| && i < |b| ==> Apart(a[i], b[i])
    requires (forall i :: 0 <= i < |a| ==> Opens(a[i])) && (forall i :: 0 <= i < |b| ==> Opens(b[i]))
    requires List(a, close, x) == List(b, close, y)
    ensures a == b && x == y
    decreases |a|, 1
  {
    ListHead(a, close, x);
    ListHead(b, close, y);
    if a != [] && b != [] {
      Separate(a[0], b[0], More(a, close, x), More(b, close, y));
      MoreUnique(a, b, close, x, y);
    } else if a == b {
      assert x == ([close] + x)[1..] && y == ([close] + y)[1..];
    }
  }

  lemma {:induction false} MoreUnique(a: seq<string>, b: seq<string>, close: char, x: string, y: string)
    requires close in {']', '}'} && a != [] && b != [] && a[0] == b[0]
    requires forall i :: 0 <= i < |a| && i < |b| ==> Apart(a[i], b[i])
    requires (forall i :: 0 <= i < |a| ==> Opens(a[i])) && (forall i :: 0 <= i < |b| ==> Opens(b[i]))
    requires More(a, close, x) == More(b, close, y)
    ensures a == b && x == y
    decreases |a|, 0
  {
    var (u, v) := (More(a, close, x), More(b, close, y));
    assert u[0] == v[0] && u[1..] == v[1..];
    if |a| > 1 {
      ListUnique(a[1..], b[1..], close, x, y);
      assert a == [a[0]] + a[1..] && b == [b[0]] + b[1..];
    }
  }

  function Enclosed(open: char, texts: seq<string>, close: char): string {
    [open] + Join(texts) + [close]
  }

  /** Bracketed lists are told apart when their elements are. */
  lemma EnclosedApart(open: char, a: seq<string>, b: seq<string>, close: char)
    requires close in {']', '}'}
    requires forall i :: 0 <= i < |a| && i < |b| ==> Apart(a[i], b[i])
    requires (forall i :: 0 <= i < |a| ==> Opens(a[i])) && (forall i :: 0 <= i < |b| ==> Opens(b[i]))
    ensures Apart(Enclosed(open, a, close), Enclosed(open, b, close))
    ensures Enclosed(open, a, close) == Enclosed(open, b, close) ==> a == b
  {
    var (p, q) := (Enclosed(open, a, close), Enclosed(open, b, close));
    if p <= q {
      EnclosedPrefix(open, a, b, close);
    }
    if q <= p {
      EnclosedPrefix(open, b, a, close);
    }
  }

  lemma EnclosedPrefix(open: char, a: seq<string>, b: seq<string>, close: char)
    requires close in {']', '}'}
    requires forall i :: 0 <= i < |a| && i < |b| ==> Apart(a[i], b[i])
    requires (forall i :: 0 <= i < |a| ==> Opens(a[i])) && (forall i :: 0 <= i < |b| ==> Opens(b[i]))
    requires Enclosed(open, a, close) <= Enclosed(open, b, close)
    ensures a == b
  {
    var (p, q) := (Enclosed(open, a, close), Enclosed(open, b, close));
    var z := q[|p|..];
    assert q == p + z;
    assert List(a, close, z) == (p + z)[1..];
    assert List(b, close, "") == q[1..];
    ListUnique(a, b, close, z, "");
  }

  /** Object members are told apart by their keys, and by their values when the keys agree. */
  lemma MembersApart(key: string, text: string, key': string, text': string)
    requires Apart(text, text')
    ensures var (p, q) := (Quote(key) + ":" + text, Quote(key') + ":" + text');
            Apart(p, q) && (p == q ==> key == key' && text == text')
  {
    var (p, q) := (Quote(key) + ":" + text, Quote(key') + ":" + text');
    if p <= q {
      MemberPrefix(key, text, key', text', q[|p|..]);
    }
    if q <= p {
      MemberPrefix(key', text', key, text, p[|q|..]);
    }
  }

  lemma MemberPrefix(key: string, text: string, key': string, text': string, z: string)
    requires Quote(key) + ":" + text + z == Quote(key') + ":" + text'
    ensures key == key' && text + z == text'
  {
    Regroup(Quote(key), ":", text, z);
    Regroup(Quote(key'), ":", text', "");
    var (u, v) := (":" + text + z, ":" + text' + "");
    QuoteUnique(key, key', u, v);
    assert u[1..] == text + z && v[1..] == text';
  }

  // ---------------------------------------------------------------- the same value

  /** Objects have each key once. */
  predicate WellFormed(v: Value) {
    match v
    case Arr(items) => forall i :: 0 <= i < |items| ==> WellFormed(items[i])
    case Obj(fields) => Distinct(fields) && forall i :: 0 <= i < |fields| ==> WellFormed(fields[i].value)
    case _ => true
  }

  predicate Distinct(fields: seq<Field>) {
    forall i, j :: 0 <= i < j < |fields| ==> fields[i].key != fields[j].key
  }

  function Unsigned(n: Number): Number {
    if n.NegativeZero? then Finite(0) else n
  }

  predicate HasKey(fields: seq<Field>, key: string) {
    exists i :: 0 <= i < |fields| && fields[i].key == key
  }

  /** Equal but for the order of object keys and the sign of zero. */
  ghost predicate Same(v: Value, w: Value)
    decreases v
  {
    match v
    case Num(n) => w.Num? && Unsigned(n) == Unsigned(w.n)
    case Arr(items) => w.Arr? && |items| == |w.items| && forall i :: 0 <= i < |items| ==> Same(items[i], w.items[i])
    case Obj(fields) =>
      && w.Obj?
      && (forall key :: HasKey(fields, key) <==> HasKey(w.fields, key))
      && (forall i, j :: 0 <= i < |fields| && 0 <= j < |w.fields| && fields[i].key == w.fields[j].key ==>
            Same(fields[i].value, w.fields[j].value))
    case _ => v == w
  }

  // ---------------------------------------------------------------- one text, one value

  lemma {:induction false} ItemTexts(items: seq<Value>, whole: Value, host: Host)
    requires forall i :: 0 <= i < |items| ==> items[i] < whole
    requires CanonicalItems(items, whole, host).Success?
    ensures var texts := CanonicalItems(items, whole, host).value;
            |texts| == |items| && forall i :: 0 <= i < |items| ==> Canonicalize(items[i], host) == Success(texts[i])
    decreases |items|
  {
    if items != [] {
      ItemTexts(items[1..], whole, host);
    }
  }

  function Member(field: Field, text: string): string {
    Quote(field.key) + ":" + text
  }

  /** The texts of the members' values. */
  lemma {:induction false} MemberTexts(fields: seq<Field>, whole: Value, host: Host) returns (values: seq<string>)
    requires forall i :: 0 <= i < |fields| ==> fields[i].value < whole
    requires CanonicalFields(fields, whole, host).Success?
    ensures var texts := CanonicalFields(fields, whole, host).value;
            && |texts| == |fields| == |values|
            && forall i :: 0 <= i < |fields| ==>
                 Canonicalize(fields[i].value, host) == Success(values[i]) && texts[i] == Member(fields[i], values[i])
    decreases |fields|
  {
    values := [];
    if fields != [] {
      var rest := MemberTexts(fields[1..], whole, host);
      values := [Canonicalize(fields[0].value, host).value] + rest;
    }
  }

  predicate Leads(v: Value, c: char) {
    match v
    case Null => c == 'n'
    case Bool(b) => c == if b then 't' else 'f'
    case Num(_) => c == '-' || '0' <= c <= '9'
    case Str(_) => c == '\"'
    case Arr(_) => c == '['
    case Obj(_) => c == '{'
    case Undefined => false
  }

  /** The first character tells what kind of value a text is of. */
  lemma FirstChar(v: Value, host: Host)
    requires Legible(host) && Canonicalize(v, host).Success?
    ensures var text := Canonicalize(v, host).value; Opens(text) && Leads(v, text[0])
  {
    match v
    case Num(n) => assert NumeralText(host.numeral(if n.Finite? then n.name else 0));
    case Obj(fields) => SortedBelow(v, host.before);
    case _ =>
  }

  lemma DifferentLeads(v: Value, w: Value, p: string, q: string)
    requires p != "" && q != "" && Leads(v, p[0]) && Leads(w, q[0])
    requires v.Null? != w.Null? || v.Bool? != w.Bool? || v.Num? != w.Num? || v.Str? != w.Str?
             || v.Arr? != w.Arr? || v.Obj? != w.Obj?
    ensures Apart(p, q) && p != q
  {
  }

  predicate Printed(v: Value, host: Host, text: string) {
    Canonicalize(v, host) == Success(text)
  }

  lemma NumeralsApart(m: Number, n: Number, host: Host, p: string, q: string)
    requires Legible(host) && Printed(Num(m), host, p) && Printed(Num(n), host, q)
    ensures Apart(p, q) && (p == q ==> Unsigned(m) == Unsigned(n))
  {
    assert NumeralText(p) && NumeralText(q);
  }

  lemma StringsApart(s: string, t: string)
    ensures Apart(Quote(s), Quote(t)) && (Quote(s) == Quote(t) ==> s == t)
  {
    var (p, q) := (Quote(s), Quote(t));
    if p <= q {
      assert p + q[|p|..] == q + "";
      QuoteUnique(s, t, q[|p|..], "");
    }
    if q <= p {
      assert q + p[|q|..] == p + "";
      QuoteUnique(t, s, p[|q|..], "");
    }
  }

  /** No text of one value can be read as the beginning of another's, and equal texts come from the same value. */
  lemma {:induction false} TextsApart(v: Value, w: Value, host: Host, p: string, q: string)
    requires Legible(host) && WellFormed(v) && WellFormed(w) && Printed(v, host, p) && Printed(w, host, q)
    ensures Apart(p, q) && (p == q ==> Same(v, w))
    decreases v, 1
  {
    FirstChar(v, host);
    FirstChar(w, host);
    if v.Num? && w.Num? {
      NumeralsApart(v.n, w.n, host, p, q);
    } else if v.Str? && w.Str? {
      StringsApart(v.s, w.s);
    } else if v.Arr? && w.Arr? {
      ArraysApart(v, w, host, p, q);
    } else if v.Obj? && w.Obj? {
      ObjectsApart(v, w, host, p, q);
    } else if v.Null? && w.Null? {
    } else if v.Bool? && w.Bool? {
    } else {
      DifferentLeads(v, w, p, q);
    }
  }

  predicate ItemsPrintAlike(a: seq<Value>, b: seq<Value>, host: Host) {
    |a| == |b| && forall i :: 0 <= i < |a| ==> Canonicalize(a[i], host) == Canonicalize(b[i], host)
  }

  predicate FieldsPrintAlike(f: seq<Field>, g: seq<Field>, host: Host) {
    && |f| == |g|
    && forall i :: 0 <= i < |f| ==>
         f[i].key == g[i].key && Canonicalize(f[i].value, host) == Canonicalize(g[i].value, host)
  }

  lemma {:induction false} ArraysApart(v: Value, w: Value, host: Host, p: string, q: string)
    requires Legible(host) && WellFormed(v) && WellFormed(w) && Printed(v, host, p) && Printed(w, host, q)
    requires v.Arr? && w.Arr?
    ensures Apart(p, q) && (p == q ==> Same(v, w) && ItemsPrintAlike(v.items, w.items, host))
    decreases v, 0
  {
    ItemTexts(v.items, v, host);
    ItemTexts(w.items, w, host);
    var (a, b) := (CanonicalItems(v.items, v, host).value, CanonicalItems(w.items, w, host).value);
    forall i | 0 <= i < |a| && i < |b|
      ensures Apart(a[i], b[i]) && (a[i] == b[i] ==> Same(v.items[i], w.items[i]))
    {
      TextsApart(v.items[i], w.items[i], host, a[i], b[i]);
    }
    ItemsOpen(v.items, a, host);
    ItemsOpen(w.items, b, host);
    EnclosedApart('[', a, b, ']');
    assert p == Enclosed('[', a, ']') && q == Enclosed('[', b, ']');
  }

  lemma ItemsOpen(items: seq<Value>, texts: seq<string>, host: Host)
    requires Legible(host) && |items| == |texts|
    requires forall i :: 0 <= i < |items| ==> Canonicalize(items[i], host) == Success(texts[i])
    ensures forall i :: 0 <= i < |texts| ==> Opens(texts[i])
  {
    forall i | 0 <= i < |texts|
      ensures Opens(texts[i])
    {
      FirstChar(items[i], host);
    }
  }

  lemma {:induction false} ObjectsApart(v: Value, w: Value, host: Host, p: string, q: string)
    requires Legible(host) && WellFormed(v) && WellFormed(w) && Printed(v, host, p) && Printed(w, host, q)
    requires v.Obj? && w.Obj?
    ensures Apart(p, q)
    ensures p == q ==> Same(v, w) && FieldsPrintAlike(Sort(v.fields, host.before), Sort(w.fields, host.before), host)
    decreases v, 0
  {
    var (f, g) := (Sort(v.fields, host.before), Sort(w.fields, host.before));
    SortedBelow(v, host.before);
    SortedBelow(w, host.before);
    var s := MemberTexts(f, v, host);
    var t := MemberTexts(g, w, host);
    var (a, b) := (CanonicalFields(f, v, host).value, CanonicalFields(g, w, host).value);
    SortMembers(v.fields, host.before);
    SortMembers(w.fields, host.before);
    forall i | 0 <= i < |a| && i < |b|
      ensures Apart(a[i], b[i])
      ensures a[i] == b[i] ==> f[i].key == g[i].key && s[i] == t[i] && Same(f[i].value, g[i].value)
    {
      assert f[i] in v.fields && g[i] in w.fields;
      TextsApart(f[i].value, g[i].value, host, s[i], t[i]);
      MembersApart(f[i].key, s[i], g[i].key, t[i]);
    }
    EnclosedApart('{', a, b, '}');
    assert p == Enclosed('{', a, '}') && q == Enclosed('{', b, '}');
    if p == q {
      SameFields(v.fields, w.fields, f, g);
    }
  }

  /** Objects whose sorted members agree are the same. */
  lemma SameFields(a: seq<Field>, b: seq<Field>, f: seq<Field>, g: seq<Field>)
    requires Distinct(a) && Distinct(b)
    requires (forall x :: x in f <==> x in a) && (forall x :: x in g <==> x in b)
    requires |f| == |g| && forall i :: 0 <= i < |f| ==> f[i].key == g[i].key && Same(f[i].value, g[i].value)
    ensures Same(Obj(a), Obj(b))
  {
    forall i, j | 0 <= i < |a| && 0 <= j < |b| && a[i].key == b[j].key
      ensures Same(a[i].value, b[j].value)
    {
      assert a[i] in f;
      var m :| 0 <= m < |f| && f[m] == a[i];
      assert g[m] in b;
    }
    forall key
      ensures HasKey(a, key) <==> HasKey(b, key)
    {
      KeyMoves(a, b, f, g, key);
      KeyMoves(b, a, g, f, key);
    }
  }

  lemma KeyMoves(a: seq<Field>, b: seq<Field>, f: seq<Field>, g: seq<Field>, key: string)
    requires (forall x :: x in f <==> x in a) && (forall x :: x in g <==> x in b)
    requires |f| == |g| && forall i :: 0 <= i < |f| ==> f[i].key == g[i].key
    ensures HasKey(a, key) ==> HasKey(b, key)
  {
    if HasKey(a, key) {
      var i :| 0 <= i < |a| && a[i].key == key;
      assert a[i] in f;
      var m :| 0 <= m < |f| && f[m] == a[i];
      assert g[m] in b;
      var j :| 0 <= j < |b| && b[j] == g[m];
      assert b[j].key == key;
    }
  }

  // ---------------------------------------------------------------- insertion order

  /** A consistent comparator: keys that compare equal may still be different keys. */
  ghost predicate Ordering(before: (string, string) -> bool) {
    && (forall a, b :: before(a, b) ==> !before(b, a))
    && (forall a, b, c :: before(a, c) ==> before(a, b) || before(b, c))
  }

  predicate Ties(before: (string, string) -> bool, a: string, b: string) {
    a != b && !before(a, b) && !before(b, a)
  }

  predicate Digits(s: string) {
    forall i :: 0 <= i < |s| ==> '0' <= s[i] <= '9'
  }

  function Numeral(s: string): nat {
    if s == "" then 0
    else
      var last := s[|s| - 1];
      10 * Numeral(s[..|s| - 1]) + (if '0' <= last <= '9' then last as int - '0' as int else 0)
  }

  /** An array index (ECMA-262 section 6.1.7): a decimal numeral below 2^32 - 1. */
  predicate IndexKey(key: string) {
    key == "0" || (key != "" && key[0] != '0' && Digits(key) && Numeral(key) < 4_294_967_295)
  }

  /** `Object.entries` lists `a` before `b` whenever they were inserted (ECMA-262 section 10.1.11.1). */
  predicate Earlier(a: string, b: string) {
    IndexKey(a) && (IndexKey(b) ==> Numeral(a) < Numeral(b))
  }

  /** Index keys come first and ascend; the other keys stand as they were inserted. */
  predicate IndexFirst(fields: seq<Field>) {
    forall i, j :: 0 <= i < j < |fields| ==> !Earlier(fields[j].key, fields[i].key)
  }

  predicate Listed(v: Value) {
    match v
    case Arr(items) => forall i :: 0 <= i < |items| ==> Listed(items[i])
    case Obj(fields) => IndexFirst(fields) && forall i :: 0 <= i < |fields| ==> Listed(fields[i].value)
    case _ => true
  }

  /** A value that a program can hold. */
  predicate Holdable(v: Value) {
    WellFormed(v) && Listed(v)
  }

  /** Two keys that compare equal and are listed as they were inserted. */
  predicate Clash(before: (string, string) -> bool, a: string, b: string) {
    Ties(before, a, b) && !IndexKey(a) && !IndexKey(b)
  }

  predicate UntiedKeys(fields: seq<Field>, before: (string, string) -> bool) {
    forall i, j :: 0 <= i < |fields| && 0 <= j < |fields| ==> !Clash(before, fields[i].key, fields[j].key)
  }

  /** In no object inside `v` do two different keys that are not array indices compare equal. */
  predicate Untied(v: Value, before: (string, string) -> bool) {
    match v
    case Arr(items) => forall i :: 0 <= i < |items| ==> Untied(items[i], before)
    case Obj(fields) => UntiedKeys(fields, before) && forall i :: 0 <= i < |fields| ==> Untied(fields[i].value, before)
    case _ => true
  }

  lemma {:induction false} NumeralPositive(s: string)
    requires s != "" && s[0] != '0' && Digits(s)
    ensures Numeral(s) >= 1
  {
    var init := s[..|s| - 1];
    if init != "" {
      NumeralPositive(init);
    }
  }

  lemma {:induction false} NumeralUnique(s: string, t: string)
    requires Digits(s) && Digits(t) && (s != "" ==> s[0] != '0') && (t != "" ==> t[0] != '0')
    requires Numeral(s) == Numeral(t)
    ensures s == t
  {
    if s == "" || t == "" {
      if s != "" {
        NumeralPositive(s);
      }
      if t != "" {
        NumeralPositive(t);
      }
    } else {
      var (a, b) := (s[..|s| - 1], t[..|t| - 1]);
      var (c, d) := (s[|s| - 1], t[|t| - 1]);
      assert s == a + [c] && t == b + [d];
      assert c == d;
      NumeralUnique(a, b);
    }
  }

  /** Of two keys one of which is an array index, `Object.entries` always lists the same one first. */
  lemma IndexOrder(a: string, b: string)
    requires a != b && (IndexKey(a) || IndexKey(b))
    ensures Earlier(a, b) != Earlier(b, a)
  {
    assert Numeral("0") == 0 by {
      assert "0"[..0] == "";
    }
    if IndexKey(a) && IndexKey(b) && Numeral(a) == Numeral(b) {
      if a == "0" {
        NumeralPositive(b);
      } else if b == "0" {
        NumeralPositive(a);
      } else {
        NumeralUnique(a, b);
      }
    }
  }

  predicate Sorted(fields: seq<Field>, before: (string, string) -> bool) {
    forall i, j :: 0 <= i < j < |fields| ==> !before(fields[j].key, fields[i].key)
  }

  lemma {:induction false} InsertSorts(sorted: seq<Field>, field: Field, before: (string, string) -> bool)
    requires Ordering(before) && Sorted(sorted, before)
    ensures Sorted(Insert(sorted, field, before), before)
  {
    if sorted != [] {
      var last := sorted[|sorted| - 1];
      if before(field.key, last.key) {
        var init := sorted[..|sorted| - 1];
        InsertSorts(init, field, before);
        InsertKeeps(init, field, before);
        forall x | x in Insert(init, field, before)
          ensures !before(last.key, x.key)
        {
          assert x in multiset(init) + multiset{field};
        }
      }
    }
  }

  lemma {:induction false} SortSorts(fields: seq<Field>, before: (string, string) -> bool)
    requires Ordering(before)
    ensures Sorted(Sort(fields, before), before)
  {
    if fields != [] {
      SortSorts(fields[..|fields| - 1], before);
      InsertSorts(Sort(fields[..|fields| - 1], before), fields[|fields| - 1], before);
    }
  }

  lemma {:induction false} InsertDistinct(sorted: seq<Field>, field: Field, before: (string, string) -> bool)
    requires Distinct(sorted) && !HasKey(sorted, field.key)
    ensures Distinct(Insert(sorted, field, before))
  {
    if sorted != [] && before(field.key, sorted[|sorted| - 1].key) {
      var (init, last) := (sorted[..|sorted| - 1], sorted[|sorted| - 1]);
      assert forall i :: 0 <= i < |init| ==> init[i] == sorted[i];
      InsertDistinct(init, field, before);
      InsertKeeps(init, field, before);
      forall x | x in Insert(init, field, before)
        ensures x.key != last.key
      {
        assert x in multiset(init) + multiset{field};
      }
    }
  }

  lemma {:induction false} SortDistinct(fields: seq<Field>, before: (string, string) -> bool)
    requires Distinct(fields)
    ensures Distinct(Sort(fields, before))
  {
    if fields != [] {
      var (init, last) := (fields[..|fields| - 1], fields[|fields| - 1]);
      SortDistinct(init, before);
      SortMembers(init, before);
      var sorted := Sort(init, before);
      forall i | 0 <= i < |sorted|
        ensures sorted[i].key != last.key
      {
        assert sorted[i] in init;
      }
      InsertDistinct(sorted, last, before);
    }
  }

  /** Sorted, and keys that compare equal stand as `Object.entries` must list them. */
  predicate StablySorted(fields: seq<Field>, before: (string, string) -> bool) {
    forall i, j :: 0 <= i < j < |fields| ==> InPlace(fields[i].key, fields[j].key, before)
  }

  predicate InPlace(a: string, b: string, before: (string, string) -> bool) {
    !before(b, a) && (!before(a, b) ==> !Earlier(b, a))
  }

  lemma TopsAgree(f: seq<Field>, g: seq<Field>, before: (string, string) -> bool)
    requires f != [] && g != [] && UntiedKeys(f, before) && StablySorted(f, before) && StablySorted(g, before)
    requires forall key :: HasKey(f, key) <==> HasKey(g, key)
    ensures f[|f| - 1].key == g[|g| - 1].key
  {
    var (top, max) := (f[|f| - 1].key, g[|g| - 1].key);
    assert HasKey(f, top) && HasKey(g, max);
    var i :| 0 <= i < |g| && g[i].key == top;
    var j :| 0 <= j < |f| && f[j].key == max;
    assert !Clash(before, f[|f| - 1].key, f[j].key);
    if top != max {
      assert InPlace(top, max, before) && InPlace(max, top, before);
      assert IndexKey(top) || IndexKey(max);
      IndexOrder(top, max);
    }
  }

  /** Keys without ties can be sorted in only one way. */
  lemma {:induction false} SortedKeysAgree(f: seq<Field>, g: seq<Field>, before: (string, string) -> bool)
    requires UntiedKeys(f, before)
    requires StablySorted(f, before) && StablySorted(g, before) && Distinct(f) && Distinct(g)
    requires forall key :: HasKey(f, key) <==> HasKey(g, key)
    ensures |f| == |g| && forall i :: 0 <= i < |f| ==> f[i].key == g[i].key
    decreases |f|
  {
    if f == [] {
      if g != [] {
        assert HasKey(g, g[0].key);
      }
    } else {
      assert HasKey(f, f[|f| - 1].key);
      TopsAgree(f, g, before);
      var (f', g') := (f[..|f| - 1], g[..|g| - 1]);
      forall key
        ensures HasKey(f', key) <==> HasKey(g', key)
      {
        AllButTop(f, key);
        AllButTop(g, key);
      }
      InitSorted(f, before);
      InitSorted(g, before);
      SortedKeysAgree(f', g', before);
      assert f == f' + [f[|f| - 1]] && g == g' + [g[|g| - 1]];
    }
  }

  lemma InitSorted(f: seq<Field>, before: (string, string) -> bool)
    requires f != []
    ensures StablySorted(f, before) ==> StablySorted(f[..|f| - 1], before)
    ensures Distinct(f) ==> Distinct(f[..|f| - 1])
    ensures UntiedKeys(f, before) ==> UntiedKeys(f[..|f| - 1], before)
  {
  }

  lemma AllButTop(f: seq<Field>, key: string)
    requires f != [] && Distinct(f)
    ensures HasKey(f[..|f| - 1], key) <==> HasKey(f, key) && key != f[|f| - 1].key
  {
    var init := f[..|f| - 1];
    assert forall i :: 0 <= i < |init| ==> init[i] == f[i];
    if HasKey(f, key) && key != f[|f| - 1].key {
      var i :| 0 <= i < |f| && f[i].key == key;
      assert init[i].key == key;
    }
  }

  /** Sorting leaves the keys as they were. */
  lemma SortHasKeys(fields: seq<Field>, before: (string, string) -> bool)
    ensures forall key :: HasKey(Sort(fields, before), key) <==> HasKey(fields, key)
  {
    SortMembers(fields, before);
    var sorted := Sort(fields, before);
    forall key
      ensures HasKey(sorted, key) <==> HasKey(fields, key)
    {
      if HasKey(fields, key) {
        var i :| 0 <= i < |fields| && fields[i].key == key;
        assert fields[i] in sorted;
      }
      if HasKey(sorted, key) {
        var i :| 0 <= i < |sorted| && sorted[i].key == key;
        assert sorted[i] in fields;
      }
    }
  }

  /** When no keys of one object clash, values that are the same have the same text, or fail alike. */
  lemma {:induction false} SameTexts(v: Value, w: Value, host: Host)
    requires Ordering(host.before) && Untied(v, host.before) && Alike(v, w)
    ensures Canonicalize(v, host) == Canonicalize(w, host)
    decreases v, 1, 0
  {
    if v.Arr? {
      SameItems(v.items, w.items, v, w, host);
    } else if v.Obj? {
      var (f, g) := (Sort(v.fields, host.before), Sort(w.fields, host.before));
      SortedBelow(v, host.before);
      SortedBelow(w, host.before);
      SameMembers(v, w, f, g, host);
      SameFieldTexts(f, g, v, w, host);
    }
  }

  lemma {:induction false} SameItems(a: seq<Value>, b: seq<Value>, v: Value, w: Value, host: Host)
    requires Ordering(host.before) && |a| == |b|
    requires (forall i :: 0 <= i < |a| ==> a[i] < v) && (forall i :: 0 <= i < |b| ==> b[i] < w)
    requires forall i :: 0 <= i < |a| ==> Untied(a[i], host.before) && Alike(a[i], b[i])
    ensures CanonicalItems(a, v, host) == CanonicalItems(b, w, host)
    decreases v, 0, |a|
  {
    if a != [] {
      SameTexts(a[0], b[0], host);
      SameItems(a[1..], b[1..], v, w, host);
    }
  }

  lemma {:induction false} SameFieldTexts(f: seq<Field>, g: seq<Field>, v: Value, w: Value, host: Host)
    requires Ordering(host.before) && |f| == |g|
    requires (forall i :: 0 <= i < |f| ==> f[i].value < v) && (forall i :: 0 <= i < |g| ==> g[i].value < w)
    requires forall i :: 0 <= i < |f| ==> f[i].key == g[i].key && Alike(f[i].value, g[i].value)
    requires forall i :: 0 <= i < |f| ==> Untied(f[i].value, host.before)
    ensures CanonicalFields(f, v, host) == CanonicalFields(g, w, host)
    decreases v, 0, |f|
  {
    if f != [] {
      assert Alike(f[0].value, g[0].value);
      SameTexts(f[0].value, g[0].value, host);
      SameFieldTexts(f[1..], g[1..], v, w, host);
    }
  }

  ghost predicate Alike(v: Value, w: Value) {
    Holdable(v) && Holdable(w) && Same(v, w)
  }

  lemma SortUntied(fields: seq<Field>, before: (string, string) -> bool)
    requires UntiedKeys(fields, before)
    ensures UntiedKeys(Sort(fields, before), before)
  {
    SortMembers(fields, before);
    var f := Sort(fields, before);
    forall i, j | 0 <= i < |f| && 0 <= j < |f|
      ensures !Clash(before, f[i].key, f[j].key)
    {
      assert f[i] in fields && f[j] in fields;
    }
  }

  /** The sorted members of objects that are the same agree one by one. */
  lemma SameMembers(v: Value, w: Value, f: seq<Field>, g: seq<Field>, host: Host)
    requires Ordering(host.before) && Untied(v, host.before) && v.Obj? && w.Obj? && Alike(v, w)
    requires f == Sort(v.fields, host.before) && g == Sort(w.fields, host.before)
    ensures |f| == |g|
    ensures forall i :: 0 <= i < |f| ==> f[i].key == g[i].key && Alike(f[i].value, g[i].value)
    ensures forall i :: 0 <= i < |f| ==> Untied(f[i].value, host.before)
  {
    SortMembers(v.fields, host.before);
    SortMembers(w.fields, host.before);
    SortUntied(v.fields, host.before);
    SortStable(v.fields, host.before);
    SortStable(w.fields, host.before);
    SortDistinct(v.fields, host.before);
    SortDistinct(w.fields, host.before);
    SortHasKeys(v.fields, host.before);
    SortHasKeys(w.fields, host.before);
    SortedKeysAgree(f, g, host.before);
    forall i | 0 <= i < |f|
      ensures Alike(f[i].value, g[i].value) && Untied(f[i].value, host.before)
    {
      assert f[i] in v.fields && g[i] in w.fields;
      var m :| 0 <= m < |v.fields| && v.fields[m] == f[i];
      var n :| 0 <= n < |w.fields| && w.fields[n] == g[i];
    }
  }

  /** The key `a` stands before the key `b`. */
  predicate Comes(fields: seq<Field>, a: string, b: string) {
    exists i, j :: 0 <= i < j < |fields| && fields[i].key == a && fields[j].key == b
  }

  lemma ComesThen(fields: seq<Field>, more: seq<Field>, a: string, b: string)
    requires Comes(fields, a, b) || (HasKey(fields, a) && HasKey(more, b))
    ensures Comes(fields + more, a, b)
  {
    var all := fields + more;
    if Comes(fields, a, b) {
      var i, j :| 0 <= i < j < |fields| && fields[i].key == a && fields[j].key == b;
      assert all[i].key == a && all[j].key == b;
    } else {
      var i :| 0 <= i < |fields| && fields[i].key == a;
      var j :| 0 <= j < |more| && more[j].key == b;
      assert all[i].key == a && all[|fields| + j].key == b;
    }
  }

  lemma ComesSplit(init: seq<Field>, last: Field, a: string, b: string)
    requires Comes(init + [last], a, b)
    ensures Comes(init, a, b) || (HasKey(init, a) && last.key == b)
  {
    var all := init + [last];
    var i, j :| 0 <= i < j < |all| && all[i].key == a && all[j].key == b;
    assert init[i].key == a;
    assert j < |init| ==> init[j].key == b;
  }

  lemma InsertHasKey(sorted: seq<Field>, field: Field, before: (string, string) -> bool, key: string)
    requires HasKey(sorted, key) || key == field.key
    ensures HasKey(Insert(sorted, field, before), key)
  {
    InsertKeeps(sorted, field, before);
    var all := Insert(sorted, field, before);
    var x := field;
    if key != field.key {
      var i :| 0 <= i < |sorted| && sorted[i].key == key;
      x := sorted[i];
    }
    assert x in multiset(sorted) + multiset{field};
    assert x in multiset(all) && x in all;
  }

  /** Inserting keeps the order of what is there, and puts a key that is not smaller than `a` after `a`. */
  lemma {:induction false} InsertOrder(sorted: seq<Field>, field: Field, before: (string, string) -> bool,
                                       a: string, b: string)
    requires Comes(sorted, a, b) || (HasKey(sorted, a) && b == field.key && !before(b, a))
    ensures Comes(Insert(sorted, field, before), a, b)
  {
    var (init, last) := (sorted[..|sorted| - 1], sorted[|sorted| - 1]);
    assert sorted == init + [last];
    if !before(field.key, last.key) {
      assert [field][0].key == field.key;
      ComesThen(sorted, [field], a, b);
    } else {
      assert [last][0].key == last.key;
      if Comes(sorted, a, b) {
        ComesSplit(init, last, a, b);
      } else {
        assert HasKey(init, a) by {
          var i :| 0 <= i < |sorted| && sorted[i].key == a;
          assert init[i].key == a;
        }
      }
      if Comes(init, a, b) || (HasKey(init, a) && b == field.key && !before(b, a)) {
        InsertOrder(init, field, before, a, b);
      } else {
        InsertHasKey(init, field, before, a);
      }
      ComesThen(Insert(init, field, before), [last], a, b);
    }
  }

  /** A stable sort keeps two keys in their order unless the later one is smaller. */
  lemma {:induction false} SortOrder(fields: seq<Field>, before: (string, string) -> bool, a: string, b: string)
    requires Comes(fields, a, b) && !before(b, a)
    ensures Comes(Sort(fields, before), a, b)
  {
    var (init, last) := (fields[..|fields| - 1], fields[|fields| - 1]);
    assert fields == init + [last];
    ComesSplit(init, last, a, b);
    if Comes(init, a, b) {
      SortOrder(init, before, a, b);
    } else {
      SortHasKeys(init, before);
    }
    InsertOrder(Sort(init, before), last, before, a, b);
  }

  lemma KeysInOrder(f: seq<Field>, g: seq<Field>, a: string, b: string)
    requires Distinct(f) && |f| == |g| && forall i :: 0 <= i < |f| ==> f[i].key == g[i].key
    requires Comes(f, a, b)
    ensures !Comes(g, b, a)
  {
  }

  /** Sorting what `Object.entries` lists keeps index keys that compare equal in their place. */
  lemma SortStable(fields: seq<Field>, before: (string, string) -> bool)
    requires Ordering(before) && Distinct(fields) && IndexFirst(fields)
    ensures StablySorted(Sort(fields, before), before)
  {
    var f := Sort(fields, before);
    SortSorts(fields, before);
    SortDistinct(fields, before);
    SortMembers(fields, before);
    forall i, j | 0 <= i < j < |f|
      ensures InPlace(f[i].key, f[j].key, before)
    {
      var (a, b) := (f[i].key, f[j].key);
      if !before(a, b) && Earlier(b, a) {
        assert f[i] in fields && f[j] in fields;
        ListedFirst(fields, b, a);
        SortOrder(fields, before, b, a);
        KeysInOrder(f, f, b, a);
      }
    }
  }

  lemma ListedFirst(fields: seq<Field>, a: string, b: string)
    requires IndexFirst(fields) && Earlier(a, b) && a != b && HasKey(fields, a) && HasKey(fields, b)
    ensures Comes(fields, a, b)
  {
    var i :| 0 <= i < |fields| && fields[i].key == a;
    var j :| 0 <= j < |fields| && fields[j].key == b;
    assert i < j;
  }

  lemma {:induction false} SameReflexive(v: Value)
    requires WellFormed(v)
    ensures Same(v, v)
  {
    if v.Arr? {
      forall i | 0 <= i < |v.items|
        ensures Same(v.items[i], v.items[i])
      {
        SameReflexive(v.items[i]);
      }
    } else if v.Obj? {
      forall i | 0 <= i < |v.fields|
        ensures Same(v.fields[i].value, v.fields[i].value)
      {
        SameReflexive(v.fields[i].value);
      }
    }
  }

  function Swap(fields: seq<Field>, i: nat, j: nat): (swapped: seq<Field>)
    requires i < j < |fields|
    ensures |swapped| == |fields|
  {
    fields[i := fields[j]][j := fields[i]]
  }

  /** Keys that are not array indices may have been inserted the other way round. */
  lemma SwapListed(fields: seq<Field>, i: nat, j: nat)
    requires i < j < |fields| && IndexFirst(fields) && !IndexKey(fields[i].key) && !IndexKey(fields[j].key)
    ensures IndexFirst(Swap(fields, i, j))
  {
    var other := Swap(fields, i, j);
    forall m | i <= m < |fields|
      ensures !IndexKey(fields[m].key)
    {
      assert m > i ==> !Earlier(fields[m].key, fields[i].key);
    }
  }

  lemma SwapAlike(fields: seq<Field>, i: nat, j: nat)
    requires i < j < |fields| && Holdable(Obj(fields)) && !IndexKey(fields[i].key) && !IndexKey(fields[j].key)
    ensures Alike(Obj(fields), Obj(Swap(fields, i, j)))
  {
    var other := Swap(fields, i, j);
    SwapListed(fields, i, j);
    forall m | 0 <= m < |fields|
      ensures fields[m] in other && Same(fields[m].value, fields[m].value)
    {
      SameReflexive(fields[m].value);
      assert fields[m] == other[if m == i then j else if m == j then i else m];
    }
    SameFields(fields, other, fields, fields);
  }

  /** Exchanging two keys of an object that clash changes its text. */
  lemma SwapShows(fields: seq<Field>, i: nat, j: nat, host: Host)
    requires Legible(host) && i < j < |fields| && Holdable(Obj(fields))
    requires Clash(host.before, fields[i].key, fields[j].key) && Canonicalize(Obj(fields), host).Success?
    ensures Canonicalize(Obj(Swap(fields, i, j)), host) != Canonicalize(Obj(fields), host)
  {
    var (v, w) := (Obj(fields), Obj(Swap(fields, i, j)));
    SwapAlike(fields, i, j);
    if Canonicalize(w, host) == Canonicalize(v, host) {
      var (a, b) := (fields[i].key, fields[j].key);
      assert w.fields[i].key == b && w.fields[j].key == a;
      SortOrder(fields, host.before, a, b);
      SortOrder(w.fields, host.before, b, a);
      var text := Canonicalize(v, host).value;
      ObjectsApart(v, w, host, text, text);
      SortDistinct(fields, host.before);
      KeysInOrder(Sort(fields, host.before), Sort(w.fields, host.before), a, b);
    }
  }

  lemma PutAlike(fields: seq<Field>, i: nat, value: Value)
    requires i < |fields| && Holdable(Obj(fields)) && Alike(fields[i].value, value)
    ensures Alike(Obj(fields), Obj(fields[i := fields[i].(value := value)]))
  {
    var other := fields[i := fields[i].(value := value)];
    forall m | 0 <= m < |fields|
      ensures Same(fields[m].value, other[m].value)
    {
      SameReflexive(fields[m].value);
    }
    SameFields(fields, other, fields, other);
  }

  lemma MemberPrintsSorted(field: Field, other: seq<Field>, i: nat, f: seq<Field>, g: seq<Field>, host: Host)
    requires field in f && (forall x :: x in g ==> x in other) && FieldsPrintAlike(f, g, host)
    requires Distinct(other) && i < |other| && field.key == other[i].key
    ensures Canonicalize(field.value, host) == Canonicalize(other[i].value, host)
  {
    var m :| 0 <= m < |f| && f[m] == field;
    assert g[m] in other;
    var n :| 0 <= n < |other| && other[n] == g[m];
    assert n == i;
  }

  lemma MemberPrints(fields: seq<Field>, other: seq<Field>, i: nat, host: Host)
    requires i < |fields| == |other| && Distinct(fields) && Distinct(other) && fields[i].key == other[i].key
    requires FieldsPrintAlike(Sort(fields, host.before), Sort(other, host.before), host)
    ensures Canonicalize(fields[i].value, host) == Canonicalize(other[i].value, host)
  {
    SortMembers(fields, host.before);
    SortMembers(other, host.before);
    assert fields[i] in Sort(fields, host.before);
    MemberPrintsSorted(fields[i], other, i, Sort(fields, host.before), Sort(other, host.before), host);
  }

  /** A different text of a member's value shows in the text of the object. */
  lemma PutShows(fields: seq<Field>, i: nat, value: Value, host: Host)
    requires Legible(host) && i < |fields| && Holdable(Obj(fields)) && Alike(fields[i].value, value)
    requires Canonicalize(Obj(fields), host).Success?
    requires Canonicalize(fields[i].value, host) != Canonicalize(value, host)
    ensures Canonicalize(Obj(fields[i := fields[i].(value := value)]), host) != Canonicalize(Obj(fields), host)
  {
    var (v, w) := (Obj(fields), Obj(fields[i := fields[i].(value := value)]));
    PutAlike(fields, i, value);
    if Canonicalize(w, host) == Canonicalize(v, host) {
      var text := Canonicalize(v, host).value;
      ObjectsApart(v, w, host, text, text);
      MemberPrints(fields, w.fields, i, host);
    }
  }

  lemma ItemShows(items: seq<Value>, i: nat, value: Value, host: Host)
    requires Legible(host) && i < |items| && Holdable(Arr(items)) && Alike(items[i], value)
    requires Canonicalize(Arr(items), host).Success?
    requires Canonicalize(items[i], host) != Canonicalize(value, host)
    ensures Alike(Arr(items), Arr(items[i := value]))
    ensures Canonicalize(Arr(items[i := value]), host) != Canonicalize(Arr(items), host)
  {
    var (v, w) := (Arr(items), Arr(items[i := value]));
    forall m | 0 <= m < |items|
      ensures Same(items[m], w.items[m])
    {
      SameReflexive(items[m]);
    }
    if Canonicalize(w, host) == Canonicalize(v, host) {
      var text := Canonicalize(v, host).value;
      ArraysApart(v, w, host, text, text);
    }
  }

  /** A printable value in which two keys of an object clash has an equal value with another text. */
  lemma {:induction false} TiesShow(v: Value, host: Host) returns (w: Value)
    requires Legible(host) && Holdable(v) && Printable(v) && !Untied(v, host.before)
    ensures Alike(v, w) && Canonicalize(v, host) != Canonicalize(w, host)
    decreases v
  {
    PrintsJsonOnly(v, host);
    if v.Arr? {
      var i :| 0 <= i < |v.items| && !Untied(v.items[i], host.before);
      var item := TiesShow(v.items[i], host);
      ItemShows(v.items, i, item, host);
      w := Arr(v.items[i := item]);
    } else if UntiedKeys(v.fields, host.before) {
      var i :| 0 <= i < |v.fields| && !Untied(v.fields[i].value, host.before);
      var value := TiesShow(v.fields[i].value, host);
      PutAlike(v.fields, i, value);
      PutShows(v.fields, i, value, host);
      w := Obj(v.fields[i := v.fields[i].(value := value)]);
    } else {
      var i, j :| 0 <= i < |v.fields| && 0 <= j < |v.fields| && Clash(host.before, v.fields[i].key, v.fields[j].key);
      var (m, n) := if i < j then (i, j) else (j, i);
      SwapAlike(v.fields, m, n);
      SwapShows(v.fields, m, n, host);
      w := Obj(Swap(v.fields, m, n));
    }
  }

  /**
   * The text of a value is independent of insertion order exactly when no two
   * keys of one object, array indices aside, compare equal.
   */
  lemma IndependentIffUntied(v: Value, host: Host)
    requires Legible(host) && Ordering(host.before) && Holdable(v) && Printable(v)
    ensures Untied(v, host.before) <==>
            forall w :: Alike(v, w) ==> Canonicalize(v, host) == Canonicalize(w, host)
  {
    if Untied(v, host.before) {
      forall w | Alike(v, w)
        ensures Canonicalize(v, host) == Canonicalize(w, host)
      {
        SameTexts(v, w, host);
      }
    } else {
      var w := TiesShow(v, host);
    }
  }

  /** Without ties in the first of them, two values that can be printed have one text exactly when they are the same. */
  lemma OneTextPerValue(v: Value, w: Value, host: Host, p: string, q: string)
    requires Legible(host) && Ordering(host.before) && Untied(v, host.before)
    requires Holdable(v) && Holdable(w) && Printed(v, host, p) && Printed(w, host, q)
    ensures p == q <==> Same(v, w)
  {
    TextsApart(v, w, host, p, q);
    if Same(v, w) {
      SameTexts(v, w, host);
    }
  }

  /** JSON values: every number finite, nothing undefined. */
  predicate Printable(v: Value) {
    match v
    case Num(n) => !n.NotFinite?
    case Arr(items) => forall i :: 0 <= i < |items| ==> Printable(items[i])
    case Obj(fields) => forall i :: 0 <= i < |fields| ==> Printable(fields[i].value)
    case Undefined => false
    case _ => true
  }

  lemma {:induction false} PrintsJsonOnly(v: Value, host: Host)
    ensures Canonicalize(v, host).Success? <==> Printable(v)
    decreases v, 1, 0
  {
    if v.Arr? {
      ItemsPrint(v.items, v, host);
    } else if v.Obj? {
      SortedBelow(v, host.before);
      FieldsPrint(Sort(v.fields, host.before), v, host);
      SortMembers(v.fields, host.before);
      SortedPrint(v.fields, Sort(v.fields, host.before));
    }
  }

  lemma SortedPrint(fields: seq<Field>, sorted: seq<Field>)
    requires forall f :: f in sorted <==> f in fields
    ensures Printable(Obj(fields)) <==> forall i :: 0 <= i < |sorted| ==> Printable(sorted[i].value)
  {
    if Printable(Obj(fields)) {
      forall i | 0 <= i < |sorted|
        ensures Printable(sorted[i].value)
      {
        assert sorted[i] in fields;
      }
    } else {
      var i :| 0 <= i < |fields| && !Printable(fields[i].value);
      assert fields[i] in sorted;
    }
  }

  lemma {:induction false} ItemsPrint(items: seq<Value>, whole: Value, host: Host)
    requires forall i :: 0 <= i < |items| ==> items[i] < whole
    ensures CanonicalItems(items, whole, host).Success? <==> forall i :: 0 <= i < |items| ==> Printable(items[i])
    decreases whole, 0, |items|
  {
    if items != [] {
      PrintsJsonOnly(items[0], host);
      ItemsPrint(items[1..], whole, host);
      assert forall i :: 0 < i < |items| ==> items[i] == items[1..][i - 1];
    }
  }

  lemma {:induction false} FieldsPrint(fields: seq<Field>, whole: Value, host: Host)
    requires forall i :: 0 <= i < |fields| ==> fields[i].value < whole
    ensures CanonicalFields(fields, whole, host).Success? <==>
            forall i :: 0 <= i < |fields| ==> Printable(fields[i].value)
    decreases whole, 0, |fields|
  {
    if fields != [] {
      PrintsJsonOnly(fields[0].value, host);
      FieldsPrint(fields[1..], whole, host);
      assert forall i :: 0 < i < |fields| ==> fields[i] == fields[1..][i - 1];
    }
  }
}
