/**
 * A reader of JSON text (RFC 8259, without white space between tokens), and
 * that it gives back every value `canonicalize` prints, with its keys ascending.
 */
module JsonReader {
  import opened CanonicalJson
  import opened Wrappers

  // ---------------------------------------------------------------- the reader

  function HexValue(c: char): Option<nat> {
    if '0' <= c <= '9' then Some(c as int - '0' as int)
    else if 'a' <= c <= 'f' then Some(c as int - 'a' as int + 10)
    else if 'A' <= c <= 'F' then Some(c as int - 'A' as int + 10)
    else None
  }

  /** Four hexadecimal digits that name a character of the basic plane. */
  function ReadHex(s: string): Option<char>
    requires |s| >= 4
  {
    var (a, b, c, d) := (HexValue(s[0]), HexValue(s[1]), HexValue(s[2]), HexValue(s[3]));
    if a.None? || b.None? || c.None? || d.None? then None
    else
      var code := 4096 * a.value + 256 * b.value + 16 * c.value + d.value;
      if 0xD800 <= code < 0xE000 || code > 0xFFFF then None else Some(code as char)
  }

  /** What follows a backslash. */
  function ReadEscape(s: string): (r: Option<(char, string)>)
    ensures r.Some? ==> |r.value.1| < |s|
  {
    if s == "" then None
    else match s[0]
      case '\"' => Some(('\"', s[1..]))
      case '\\' => Some(('\\', s[1..]))
      case '/' => Some(('/', s[1..]))
      case 'b' => Some((8 as char, s[1..]))
      case 'f' => Some((12 as char, s[1..]))
      case 'n' => Some((10 as char, s[1..]))
      case 'r' => Some((13 as char, s[1..]))
      case 't' => Some((9 as char, s[1..]))
      case 'u' =>
        if |s| < 5 then None
        else (match ReadHex(s[1..5])
              case None => None
              case Some(c) => Some((c, s[5..])))
      case _ => None
  }

  /** What follows an opening quote. */
  function ReadString(s: string): (r: Option<(string, string)>)
    ensures r.Some? ==> |r.value.1| < |s|
    decreases |s|
  {
    if s == "" then None
    else if s[0] == '\"' then Some(("", s[1..]))
    else if s[0] == '\\' then
      match ReadEscape(s[1..])
      case None => None
      case Some((c, rest)) => Prepended(c, ReadString(rest))
    else if s[0] as int < 32 then None
    else Prepended(s[0], ReadString(s[1..]))
  }

  function Prepended(c: char, read: Option<(string, string)>): Option<(string, string)> {
    match read
    case None => None
    case Some((s, rest)) => Some(([c] + s, rest))
  }

  /** How many characters of a number there are. */
  function Run(s: string): (n: nat)
    ensures n <= |s|
  {
    if s == "" || !NumeralChar(s[0]) then 0 else 1 + Run(s[1..])
  }

  /** The number a text stands for. */
  ghost function ReadNumber(text: string, host: Host): Option<Value> {
    if n: nat :| host.numeral(n) == text then Some(Num(Finite(n))) else None
  }

  ghost function ReadValue(s: string, host: Host): (r: Option<(Value, string)>)
    ensures r.Some? ==> |r.value.1| < |s|
    decreases |s|, 0
  {
    if "null" <= s then Some((Null, s[4..]))
    else if "true" <= s then Some((Bool(true), s[4..]))
    else if "false" <= s then Some((Bool(false), s[5..]))
    else if s == "" then None
    else if s[0] == '\"' then
      (match ReadString(s[1..])
       case None => None
       case Some((text, rest)) => Some((Str(text), rest)))
    else if s[0] == '[' then
      if |s| > 1 && s[1] == ']' then Some((Arr([]), s[2..]))
      else
        (match ReadItems(s[1..], host)
         case None => None
         case Some((items, rest)) => Some((Arr(items), rest)))
    else if s[0] == '{' then
      if |s| > 1 && s[1] == '}' then Some((Obj([]), s[2..]))
      else
        (match ReadMembers(s[1..], host)
         case None => None
         case Some((fields, rest)) => Some((Obj(fields), rest)))
    else
      var n := Run(s);
      if n == 0 then None
      else
        (match ReadNumber(s[..n], host)
         case None => None
         case Some(v) => Some((v, s[n..])))
  }

  /** Values up to the closing bracket, separated by commas. */
  ghost function ReadItems(s: string, host: Host): (r: Option<(seq<Value>, string)>)
    ensures r.Some? ==> |r.value.1| < |s|
    decreases |s|, 1
  {
    match ReadValue(s, host)
    case None => None
    case Some((v, rest)) =>
      if rest != "" && rest[0] == ']' then Some(([v], rest[1..]))
      else if rest != "" && rest[0] == ',' then
        (match ReadItems(rest[1..], host)
         case None => None
         case Some((items, last)) => Some(([v] + items, last)))
      else None
  }

  /** Members up to the closing brace. */
  ghost function ReadMembers(s: string, host: Host): (r: Option<(seq<Field>, string)>)
    ensures r.Some? ==> |r.value.1| < |s|
    decreases |s|, 1
  {
    match ReadMember(s, host)
    case None => None
    case Some((field, rest)) =>
      if rest != "" && rest[0] == '}' then Some(([field], rest[1..]))
      else if rest != "" && rest[0] == ',' then
        (match ReadMembers(rest[1..], host)
         case None => None
         case Some((fields, last)) => Some(([field] + fields, last)))
      else None
  }

  /** A quoted key, a colon and a value. */
  ghost function ReadMember(s: string, host: Host): (r: Option<(Field, string)>)
    ensures r.Some? ==> |r.value.1| < |s|
    decreases |s|, 0
  {
    if s == "" || s[0] != '\"' then None
    else
      match ReadString(s[1..])
      case None => None
      case Some((key, rest)) =>
        if rest == "" || rest[0] != ':' then None
        else
          match ReadValue(rest[1..], host)
          case None => None
          case Some((v, last)) => Some((Field(key, v), last))
  }

  // ---------------------------------------------------------------- strings and numbers come back

  lemma HexComesBack(d: nat)
    requires d < 16
    ensures HexValue(HexDigit(d)) == Some(d)
  {
  }

  lemma ControlComesBack(c: char)
    requires (c as int) < 32
    ensures var hex := "00" + [HexDigit(c as int / 16), HexDigit(c as int % 16)];
            ReadHex(hex) == Some(c)
  {
    HexComesBack(c as int / 16);
    HexComesBack(c as int % 16);
  }

  lemma EscapeRead(escape: string, c: char, x: string)
    requires ReadEscape(escape + x) == Some((c, x))
    ensures ReadString("\\" + escape + x) == Prepended(c, ReadString(x))
  {
    var all := "\\" + escape + x;
    assert all[0] == '\\' && all[1..] == escape + x;
  }

  lemma ShortEscape(e: char, x: string)
    ensures ([e] + x)[0] == e && ([e] + x)[1..] == x
  {
  }

  lemma ShortComesBack(c: char, e: char, x: string)
    requires EscapeChar(c) == "\\" + [e] && ReadEscape([e] + x) == Some((c, x))
    ensures ReadString(EscapeChar(c) + x) == Prepended(c, ReadString(x))
  {
    EscapeRead([e], c, x);
  }

  lemma ControlRead(c: char, hex: string, x: string)
    requires |hex| == 4 && ReadHex(hex) == Some(c)
    ensures ReadEscape("u" + hex + x) == Some((c, x))
  {
    var all := "u" + hex + x;
    assert all[1..5] == hex && all[5..] == x;
  }

  lemma ControlText(c: char)
    requires (c as int) < 32 && c as int !in {8, 9, 10, 12, 13}
    ensures var hex := "00" + [HexDigit(c as int / 16), HexDigit(c as int % 16)];
            EscapeChar(c) == "\\" + ("u" + hex) && |hex| == 4
  {
  }

  lemma PlainRead(c: char, x: string)
    requires EscapeChar(c) == [c] && c != '\"' && c != '\\' && c as int >= 32
    ensures ReadString(EscapeChar(c) + x) == Prepended(c, ReadString(x))
  {
    ShortEscape(c, x);
  }

  lemma CharComesBack(c: char, x: string)
    ensures ReadString(EscapeChar(c) + x) == Prepended(c, ReadString(x))
  {
    var code := c as int;
    if c == '\"' || c == '\\' || code in {8, 9, 10, 12, 13} {
      var e := EscapeChar(c)[1];
      ShortEscape(e, x);
      ShortComesBack(c, e, x);
    } else if code < 32 {
      var hex := "00" + [HexDigit(code / 16), HexDigit(code % 16)];
      ControlComesBack(c);
      ControlText(c);
      ControlRead(c, hex, x);
      EscapeRead("u" + hex, c, x);
    } else {
      PlainRead(c, x);
    }
  }

  lemma {:induction false} StringComesBack(s: string, x: string)
    ensures ReadString(Closing(s, x)) == Some((s, x))
  {
    ClosingHead(s, x);
    if s != "" {
      CharComesBack(s[0], Closing(s[1..], x));
      StringComesBack(s[1..], x);
      assert s == [s[0]] + s[1..];
    }
  }

  lemma {:induction false} RunIs(text: string, rest: string)
    requires (forall i :: 0 <= i < |text| ==> NumeralChar(text[i])) && Follows(rest)
    ensures Run(text + rest) == |text|
  {
    if text == "" {
      assert text + rest == rest;
    } else {
      assert (text + rest)[1..] == text[1..] + rest;
      RunIs(text[1..], rest);
    }
  }

  lemma NumberComesBack(n: nat, host: Host)
    requires Legible(host)
    ensures ReadNumber(host.numeral(n), host) == Some(Num(Finite(n)))
  {
  }

  // ---------------------------------------------------------------- values come back

  /** The value with the keys of every object sorted and zero without a sign. */
  function Normal(v: Value, before: (string, string) -> bool): Value
    decreases v, 1, 0
  {
    match v
    case Num(n) => Num(Unsigned(n))
    case Arr(items) => Arr(NormalItems(items, v, before))
    case Obj(fields) =>
      SortedBelow(v, before);
      Obj(NormalFields(Sort(fields, before), v, before))
    case _ => v
  }

  function NormalItems(items: seq<Value>, whole: Value, before: (string, string) -> bool): (r: seq<Value>)
    requires forall i :: 0 <= i < |items| ==> items[i] < whole
    ensures |r| == |items|
    decreases whole, 0, |items|
  {
    if items == [] then [] else [Normal(items[0], before)] + NormalItems(items[1..], whole, before)
  }

  function NormalFields(fields: seq<Field>, whole: Value, before: (string, string) -> bool): (r: seq<Field>)
    requires forall i :: 0 <= i < |fields| ==> fields[i].value < whole
    ensures |r| == |fields|
    decreases whole, 0, |fields|
  {
    if fields == [] then []
    else [Field(fields[0].key, Normal(fields[0].value, before))] + NormalFields(fields[1..], whole, before)
  }

  /** The reader takes `text` for `v` whatever may follow a value. */
  ghost predicate ComesBack(text: string, v: Value, rest: string, host: Host) {
    ReadValue(text + rest, host) == Some((v, rest))
  }

  lemma NoWord(s: string)
    requires s != "" && s[0] !in {'n', 't', 'f'}
    ensures !("null" <= s) && !("true" <= s) && !("false" <= s)
  {
  }

  lemma WordsComeBack(v: Value, text: string, rest: string, host: Host)
    requires || (v == Null && text == "null")
             || (v == Bool(true) && text == "true")
             || (v == Bool(false) && text == "false")
    ensures ComesBack(text, v, rest, host)
  {
    var all := text + rest;
    assert all[..|text|] == text && all[|text|..] == rest;
    assert all[0] == text[0] && text <= all;
    assert v != Null ==> !("null" <= all);
    assert v == Bool(false) ==> !("true" <= all);
  }

  lemma StrComesBack(s: string, rest: string, host: Host)
    ensures ComesBack(Quote(s), Str(s), rest, host)
  {
    var all := Quote(s) + rest;
    NoWord(all);
    assert all[1..] == Closing(s, rest);
    StringComesBack(s, rest);
  }

  lemma NumComesBack(n: nat, rest: string, host: Host)
    requires Legible(host) && Follows(rest)
    ensures ComesBack(host.numeral(n), Num(Finite(n)), rest, host)
  {
    var text := host.numeral(n);
    assert NumeralText(text);
    var all := text + rest;
    assert all[0] == text[0];
    NoWord(all);
    RunIs(text, rest);
    assert all[..|text|] == text && all[|text|..] == rest;
    NumberComesBack(n, host);
  }

  lemma MoreFollows(texts: seq<string>, close: char, x: string)
    requires texts != [] && close in {']', '}'}
    ensures Follows(More(texts, close, x)) && More(texts, close, x) != ""
    ensures |texts| == 1 ==> More(texts, close, x)[0] == close && More(texts, close, x)[1..] == x
    ensures |texts| > 1 ==> More(texts, close, x)[0] == ',' && More(texts, close, x)[1..] == List(texts[1..], close, x)
  {
  }

  lemma BracketText(open: char, texts: seq<string>, close: char, rest: string)
    ensures var all := Enclosed(open, texts, close) + rest;
            all != "" && all[0] == open && all[1..] == List(texts, close, rest)
    ensures texts == [] ==> Enclosed(open, texts, close) + rest == [open, close] + rest
  {
    var all := Enclosed(open, texts, close) + rest;
    assert all[1..] == List(texts, close, rest);
  }

  lemma EmptyComesBack(rest: string, host: Host)
    ensures ComesBack("[]", Arr([]), rest, host) && ComesBack("{}", Obj([]), rest, host)
  {
    NoWord("[]" + rest);
    NoWord("{}" + rest);
    assert ("[]" + rest)[2..] == rest && ("{}" + rest)[2..] == rest;
  }

  lemma ArrayReads(items: seq<Value>, texts: seq<string>, rest: string, host: Host)
    requires texts != [] && Opens(texts[0]) && ReadItems(List(texts, ']', rest), host) == Some((items, rest))
    ensures ComesBack(Enclosed('[', texts, ']'), Arr(items), rest, host)
  {
    var all := Enclosed('[', texts, ']') + rest;
    BracketText('[', texts, ']', rest);
    NoWord(all);
    ListHead(texts, ']', rest);
    assert all[1] == all[1..][0];
  }

  lemma ObjectReads(fields: seq<Field>, texts: seq<string>, rest: string, host: Host)
    requires texts != [] && Opens(texts[0]) && ReadMembers(List(texts, '}', rest), host) == Some((fields, rest))
    ensures ComesBack(Enclosed('{', texts, '}'), Obj(fields), rest, host)
  {
    var all := Enclosed('{', texts, '}') + rest;
    BracketText('{', texts, '}', rest);
    NoWord(all);
    ListHead(texts, '}', rest);
    assert all[1] == all[1..][0];
  }

  lemma KeyRead(s: string, key: string, after: string, v: Value, rest: string, host: Host)
    requires s != "" && s[0] == '\"' && ReadString(s[1..]) == Some((key, after))
    requires after != "" && after[0] == ':' && ReadValue(after[1..], host) == Some((v, rest))
    ensures ReadMember(s, host) == Some((Field(key, v), rest))
  {
  }

  lemma MemberReads(key: string, v: Value, text: string, rest: string, host: Host)
    requires ComesBack(text, v, rest, host)
    ensures ReadMember(Quote(key) + ":" + text + rest, host) == Some((Field(key, v), rest))
  {
    var after := ":" + (text + rest);
    MemberText(Quote(key), text, rest);
    QuotedRest(key, after);
    StringComesBack(key, after);
    KeyRead(Quote(key) + after, key, after, v, rest, host);
  }

  lemma MemberText(key: string, text: string, rest: string)
    ensures key + ":" + text + rest == key + (":" + (text + rest))
    ensures (":" + (text + rest))[0] == ':' && (":" + (text + rest))[1..] == text + rest
  {
  }

  lemma QuotedRest(key: string, after: string)
    ensures var all := Quote(key) + after;
            all != "" && all[0] == '\"' && all[1..] == Closing(key, after)
  {
  }

  /** Whatever is printed is read back as the same value, with its keys sorted. */
  lemma {:induction false} ValueComesBack(v: Value, text: string, rest: string, host: Host)
    requires Legible(host) && Printed(v, host, text) && Follows(rest)
    ensures ComesBack(text, Normal(v, host.before), rest, host)
    decreases v, 1, 0
  {
    match v
    case Null => WordsComeBack(v, text, rest, host);
    case Bool(b) => WordsComeBack(v, text, rest, host);
    case Str(s) => StrComesBack(s, rest, host);
    case Num(n) => NumComesBack(if n.Finite? then n.name else 0, rest, host);
    case Arr(items) =>
      ItemTexts(items, v, host);
      var texts := CanonicalItems(items, v, host).value;
      assert text == Enclosed('[', texts, ']');
      if items == [] {
        EmptyComesBack(rest, host);
      } else {
        ItemsComeBack(items, texts, v, rest, host);
        ItemsOpen(items, texts, host);
        ArrayReads(NormalItems(items, v, host.before), texts, rest, host);
      }
    case Obj(fields) =>
      SortedBelow(v, host.before);
      var f := Sort(fields, host.before);
      var values := MemberTexts(f, v, host);
      var texts := CanonicalFields(f, v, host).value;
      assert text == Enclosed('{', texts, '}');
      if f == [] {
        EmptyComesBack(rest, host);
      } else {
        MembersComeBack(f, values, texts, v, rest, host);
        ObjectReads(NormalFields(f, v, host.before), texts, rest, host);
      }
  }

  lemma {:induction false} ItemsComeBack(items: seq<Value>, texts: seq<string>, whole: Value, rest: string, host: Host)
    requires Legible(host) && items != [] && |texts| == |items|
    requires forall i :: 0 <= i < |items| ==> items[i] < whole
    requires forall i :: 0 <= i < |items| ==> Printed(items[i], host, texts[i])
    ensures ReadItems(List(texts, ']', rest), host) == Some((NormalItems(items, whole, host.before), rest))
    decreases whole, 0, |items|
  {
    ListHead(texts, ']', rest);
    MoreFollows(texts, ']', rest);
    ValueComesBack(items[0], texts[0], More(texts, ']', rest), host);
    var v := Normal(items[0], host.before);
    if |items| > 1 {
      ItemsComeBack(items[1..], texts[1..], whole, rest, host);
      NextItem(List(texts, ']', rest), host, v, More(texts, ']', rest),
               NormalItems(items[1..], whole, host.before), rest);
    } else {
      assert items[1..] == [];
      assert NormalItems([], whole, host.before) == [] && NormalItems(items, whole, host.before) == [v];
      LastItem(List(texts, ']', rest), host, v, More(texts, ']', rest));
    }
  }

  lemma LastItem(s: string, host: Host, v: Value, more: string)
    requires ReadValue(s, host) == Some((v, more)) && more != "" && more[0] == ']'
    ensures ReadItems(s, host) == Some(([v], more[1..]))
  {
  }

  lemma NextItem(s: string, host: Host, v: Value, more: string, items: seq<Value>, rest: string)
    requires ReadValue(s, host) == Some((v, more)) && more != "" && more[0] == ','
    requires ReadItems(more[1..], host) == Some((items, rest))
    ensures ReadItems(s, host) == Some(([v] + items, rest))
  {
  }

  lemma LastMember(s: string, host: Host, field: Field, more: string)
    requires ReadMember(s, host) == Some((field, more)) && more != "" && more[0] == '}'
    ensures ReadMembers(s, host) == Some(([field], more[1..]))
  {
  }

  lemma NextMember(s: string, host: Host, field: Field, more: string, fields: seq<Field>, rest: string)
    requires ReadMember(s, host) == Some((field, more)) && more != "" && more[0] == ','
    requires ReadMembers(more[1..], host) == Some((fields, rest))
    ensures ReadMembers(s, host) == Some(([field] + fields, rest))
  {
  }

  lemma MemberOpens(field: Field, text: string)
    ensures Opens(Member(field, text))
  {
    assert Member(field, text)[0] == '\"';
  }

  lemma {:induction false} MembersComeBack(
      fields: seq<Field>, values: seq<string>, texts: seq<string>, whole: Value, rest: string, host: Host)
    requires Legible(host) && fields != [] && |values| == |texts| == |fields|
    requires forall i :: 0 <= i < |fields| ==> fields[i].value < whole
    requires forall i :: 0 <= i < |fields| ==>
               Printed(fields[i].value, host, values[i]) && texts[i] == Member(fields[i], values[i])
    ensures Opens(texts[0])
    ensures ReadMembers(List(texts, '}', rest), host) == Some((NormalFields(fields, whole, host.before), rest))
    decreases whole, 0, |fields|
  {
    var more := More(texts, '}', rest);
    MemberOpens(fields[0], values[0]);
    ListHead(texts, '}', rest);
    MoreFollows(texts, '}', rest);
    ValueComesBack(fields[0].value, values[0], more, host);
    MemberReads(fields[0].key, Normal(fields[0].value, host.before), values[0], more, host);
    var field := Field(fields[0].key, Normal(fields[0].value, host.before));
    if |fields| > 1 {
      MembersComeBack(fields[1..], values[1..], texts[1..], whole, rest, host);
      NextMember(List(texts, '}', rest), host, field, more, NormalFields(fields[1..], whole, host.before), rest);
    } else {
      assert fields[1..] == [];
      assert NormalFields([], whole, host.before) == [] && NormalFields(fields, whole, host.before) == [field];
      LastMember(List(texts, '}', rest), host, field, more);
    }
  }

  // ---------------------------------------------------------------- the same value, its keys ascending

  /** In every object no key is smaller than one before it. */
  predicate KeysAscend(v: Value, before: (string, string) -> bool) {
    match v
    case Arr(items) => forall i :: 0 <= i < |items| ==> KeysAscend(items[i], before)
    case Obj(fields) => Sorted(fields, before) && forall i :: 0 <= i < |fields| ==> KeysAscend(fields[i].value, before)
    case _ => true
  }

  lemma {:induction false} ItemsAre(items: seq<Value>, whole: Value, before: (string, string) -> bool)
    requires forall i :: 0 <= i < |items| ==> items[i] < whole
    ensures forall i :: 0 <= i < |items| ==> NormalItems(items, whole, before)[i] == Normal(items[i], before)
    decreases |items|
  {
    if items != [] {
      ItemsAre(items[1..], whole, before);
    }
  }

  lemma {:induction false} FieldsAre(fields: seq<Field>, whole: Value, before: (string, string) -> bool)
    requires forall i :: 0 <= i < |fields| ==> fields[i].value < whole
    ensures forall i :: 0 <= i < |fields| ==>
              NormalFields(fields, whole, before)[i] == Field(fields[i].key, Normal(fields[i].value, before))
    decreases |fields|
  {
    if fields != [] {
      FieldsAre(fields[1..], whole, before);
    }
  }

  /** The normal form is the same value. */
  lemma {:induction false} NormalIsSame(v: Value, before: (string, string) -> bool)
    requires WellFormed(v)
    ensures Same(v, Normal(v, before))
    decreases v
  {
    if v.Arr? {
      ItemsAre(v.items, v, before);
      forall i | 0 <= i < |v.items|
        ensures Same(v.items[i], Normal(v.items[i], before))
      {
        NormalIsSame(v.items[i], before);
      }
    } else if v.Obj? {
      var f := Sort(v.fields, before);
      SortedBelow(v, before);
      FieldsAre(f, v, before);
      SortMembers(v.fields, before);
      SortDistinct(v.fields, before);
      forall i | 0 <= i < |f|
        ensures Same(f[i].value, Normal(f[i].value, before))
      {
        assert f[i] in v.fields;
        NormalIsSame(f[i].value, before);
      }
      var g := NormalFields(f, v, before);
      SameFields(v.fields, g, f, g);
    }
  }

  lemma {:induction false} NormalAscends(v: Value, before: (string, string) -> bool)
    requires Ordering(before)
    ensures KeysAscend(Normal(v, before), before)
    decreases v
  {
    if v.Arr? {
      ItemsAre(v.items, v, before);
      forall i | 0 <= i < |v.items|
        ensures KeysAscend(Normal(v.items[i], before), before)
      {
        NormalAscends(v.items[i], before);
      }
    } else if v.Obj? {
      var f := Sort(v.fields, before);
      SortedBelow(v, before);
      SortSorts(v.fields, before);
      FieldsAre(f, v, before);
      forall i | 0 <= i < |f|
        ensures KeysAscend(Normal(f[i].value, before), before)
      {
        NormalAscends(f[i].value, before);
      }
    }
  }

  /** Reading the text of a value gives back that value, the keys of every object ascending. */
  lemma RoundTrip(v: Value, host: Host, text: string) returns (w: Value)
    requires Legible(host) && Ordering(host.before) && WellFormed(v) && Printed(v, host, text)
    ensures ReadValue(text, host) == Some((w, "")) && Same(v, w) && KeysAscend(w, host.before)
  {
    w := Normal(v, host.before);
    ValueComesBack(v, text, "", host);
    assert text + "" == text;
    NormalIsSame(v, host.before);
    NormalAscends(v, host.before);
  }
}
