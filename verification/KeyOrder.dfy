/** Sets of strings as ascending sequences, in code-unit order: `[...new Set(xs)].sort()`. */
module KeyOrder {

  predicate Less(a: string, b: string) {
    b != "" && (a == "" || a[0] < b[0] || (a[0] == b[0] && Less(a[1..], b[1..])))
  }

  lemma {:induction false} LessTransitive(a: string, b: string, c: string)
    requires Less(a, b) && Less(b, c)
    ensures Less(a, c)
  {
    if a != "" && a[0] == b[0] == c[0] {
      LessTransitive(a[1..], b[1..], c[1..]);
    }
  }

  lemma {:induction false} LessTotal(a: string, b: string)
    ensures Less(a, b) || a == b || Less(b, a)
    ensures !Less(a, a) && !(Less(a, b) && Less(b, a))
    decreases |a|
  {
    if a != "" {
      if b != "" {
        LessTotal(a[1..], b[1..]);
        assert a[0] == b[0] && a[1..] == b[1..] ==> a == [a[0]] + a[1..] == b;
      }
      LessTotal(a[1..], a[1..]);
    }
  }

  predicate Ascending(keys: seq<string>) {
    forall i, j :: 0 <= i < j < |keys| ==> Less(keys[i], keys[j])
  }

  function Insert(key: string, keys: seq<string>): seq<string> {
    if keys == [] then [key]
    else if key == keys[0] then keys
    else if Less(key, keys[0]) then [key] + keys
    else [keys[0]] + Insert(key, keys[1..])
  }

  function SortedKeys(targets: seq<string>): seq<string> {
    if targets == [] then [] else Insert(targets[0], SortedKeys(targets[1..]))
  }

  lemma {:induction false} InsertSorted(key: string, keys: seq<string>)
    requires Ascending(keys)
    ensures Ascending(Insert(key, keys))
    ensures forall k :: k in Insert(key, keys) <==> k == key || k in keys
  {
    if keys != [] && key != keys[0] {
      LessTotal(key, keys[0]);
      var r := Insert(key, keys);
      if Less(key, keys[0]) {
        forall i | 0 <= i < |keys|
          ensures Less(key, keys[i])
        {
          if i > 0 { LessTransitive(key, keys[0], keys[i]); }
        }
      } else {
        var tail := Insert(key, keys[1..]);
        InsertSorted(key, keys[1..]);
        forall i | 0 <= i < |tail|
          ensures Less(keys[0], tail[i])
        {
          assert tail[i] in tail;
        }
      }
    }
  }

  /** The keys are exactly the targets, each once, in ascending order. */
  lemma {:induction false} SortedKeysCorrect(targets: seq<string>)
    ensures Ascending(SortedKeys(targets))
    ensures forall k :: k in SortedKeys(targets) <==> k in targets
  {
    if targets != [] {
      SortedKeysCorrect(targets[1..]);
      InsertSorted(targets[0], SortedKeys(targets[1..]));
      assert targets == [targets[0]] + targets[1..];
    }
  }
}
