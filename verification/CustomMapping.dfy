/** The custom mapping of a tunnel and the text a description gives of it: internal/model/tunnel.go. */
module CustomMapping {
  import opened GoStrings

  type Mapping = map<string, string>

  predicate FirstOf(keys: set<string>, k: string) {
    k in keys && forall j :: j in keys ==> CompareStrings(k, j) <= 0
  }

  lemma {:induction false} FirstExists(keys: set<string>)
    requires keys != {}
    ensures exists k :: FirstOf(keys, k)
    decreases |keys|
  {
    var x :| x in keys;
    if keys == {x} {
      assert FirstOf(keys, x);
    } else {
      FirstExists(keys - {x});
      var y :| FirstOf(keys - {x}, y);
      CompareStringsAntisymmetric(x, y);
      if CompareStrings(x, y) <= 0 {
        forall j | j in keys
          ensures CompareStrings(x, j) <= 0
        {
          if j != x {
            CompareStringsTransitive(x, y, j);
          }
        }
        assert FirstOf(keys, x);
      } else {
        assert FirstOf(keys, y);
      }
    }
  }

  lemma OneFirst(keys: set<string>)
    ensures forall a, b :: FirstOf(keys, a) && FirstOf(keys, b) ==> a == b
  {
    forall a, b | FirstOf(keys, a) && FirstOf(keys, b)
      ensures a == b
    {
      CompareStringsAntisymmetric(a, b);
    }
  }

  /** The keys in the order of sort.Strings. */
  function Sorted(keys: set<string>): (r: seq<string>)
    ensures |r| == |keys| && forall k :: k in r <==> k in keys
    decreases |keys|
  {
    if keys == {} then []
    else
      FirstExists(keys);
      OneFirst(keys);
      var k :| k in keys && FirstOf(keys, k);
      [k] + Sorted(keys - {k})
  }

  predicate Ascending(keys: seq<string>) {
    forall i, j :: 0 <= i < j < |keys| ==> CompareStrings(keys[i], keys[j]) < 0
  }

  lemma SortedFirst(keys: set<string>)
    requires keys != {}
    ensures var r := Sorted(keys); FirstOf(keys, r[0]) && r[1..] == Sorted(keys - {r[0]})
  {
    OneFirst(keys);
  }

  lemma {:induction false} SortedAscending(keys: set<string>)
    ensures Ascending(Sorted(keys))
    decreases |keys|
  {
    if keys != {} {
      SortedFirst(keys);
      var r := Sorted(keys);
      SortedAscending(keys - {r[0]});
      FirstThenAscending(r, keys);
    }
  }

  lemma FirstThenAscending(r: seq<string>, keys: set<string>)
    requires r != [] && FirstOf(keys, r[0]) && Ascending(r[1..]) && forall k :: k in r[1..] ==> k in keys && k != r[0]
    ensures Ascending(r)
  {
    forall i, j | 0 <= i < j < |r|
      ensures CompareStrings(r[i], r[j]) < 0
    {
      assert r[j] == r[1..][j - 1];
      assert i > 0 ==> r[i] == r[1..][i - 1];
    }
  }

  /** There is one such order, so it does not matter in which order the map is ranged over. */
  lemma {:induction false} OneAscendingOrder(a: seq<string>, b: seq<string>)
    requires Ascending(a) && Ascending(b) && forall k :: k in a <==> k in b
    ensures a == b
  {
    EmptyAlike(a, b);
    EmptyAlike(b, a);
    if a != [] {
      FirstIsLeast(a, b[0]);
      FirstIsLeast(b, a[0]);
      CompareStringsAntisymmetric(a[0], b[0]);
      forall k
        ensures k in a[1..] <==> k in b[1..]
      {
        RestHasTheOthers(a, k);
        RestHasTheOthers(b, k);
      }
      OneAscendingOrder(a[1..], b[1..]);
    }
  }

  lemma EmptyAlike(a: seq<string>, b: seq<string>)
    requires forall k :: k in b ==> k in a
    ensures a == [] ==> b == []
  {
    if b != [] {
      assert b[0] in b;
    }
  }

  lemma FirstIsLeast(a: seq<string>, k: string)
    requires Ascending(a) && k in a
    ensures CompareStrings(a[0], k) <= 0
  {
  }

  lemma RestHasTheOthers(a: seq<string>, k: string)
    requires Ascending(a) && a != []
    ensures k in a[1..] <==> k in a && k != a[0]
  {
    assert a == [a[0]] + a[1..];
    forall i | 0 < i < |a|
      ensures a[i] != a[0]
    {
      assert CompareStrings(a[0], a[i]) < 0;
    }
  }

  // ---------------------------------------------------------------- the text

  function Printed(keys: seq<string>, m: Mapping): string
    requires forall k :: k in keys ==> k in m
  {
    if keys == [] then "" else keys[0] + (":" + (m[keys[0]] + ("\n" + Printed(keys[1..], m))))
  }

  function Text(m: Mapping): string {
    Printed(Sorted(m.Keys), m)
  }

  lemma OneMoreLine(text: string, k: string, v: string, rest: string)
    ensures text + (k + (":" + (v + ("\n" + rest)))) == text + k + ":" + v + "\n" + rest
  {
  }

  method StableCustomMappingString(m: Mapping) returns (text: string)
    ensures text == Text(m)
  {
    if |m| == 0 {
      return "";
    }
    var keys := Sorted(m.Keys);
    text := "";
    var i := 0;
    while i < |keys|
      invariant 0 <= i <= |keys|
      invariant text + Printed(keys[i..], m) == Text(m)
    {
      assert keys[i..][1..] == keys[i + 1..];
      OneMoreLine(text, keys[i], m[keys[i]], Printed(keys[i + 1..], m));
      text := text + keys[i] + ":" + m[keys[i]] + "\n";
      i := i + 1;
    }
  }

  // ---------------------------------------------------------------- what the text says

  /** A place where a text could be cut into one key and one value. */
  predicate ColonAt(text: string, i: int) {
    0 <= i < |text| && text[i] == ':'
  }

  ghost predicate TwoColons(text: string) {
    exists i, j :: i < j && ColonAt(text, i) && ColonAt(text, j)
  }

  lemma OneEntryText(k: string, v: string)
    ensures Text(map[k := v]) == k + (":" + (v + "\n"))
  {
    var keys := Sorted({k});
    assert keys[0] in keys;
    assert keys == [k];
    assert map[k := v].Keys == {k};
    assert Printed(keys[1..], map[k := v]) == "";
    assert "\n" + "" == "\n";
  }

  /** What comes before a character and what comes after it, but for the last, as key and value. */
  function Cut(text: string, i: nat): Mapping
    requires i + 1 < |text|
  {
    map[text[..i] := text[i + 1..|text| - 1]]
  }

  /** Wherever there is a colon, what stands before and after it would be printed alike. */
  lemma CutAtColon(text: string, i: nat)
    requires ColonAt(text, i) && text[|text| - 1] == '\n'
    ensures i + 1 < |text| && Text(Cut(text, i)) == text
  {
    OneEntryText(text[..i], text[i + 1..|text| - 1]);
    assert text == text[..i] + (":" + (text[i + 1..|text| - 1] + "\n"));
  }

  lemma {:induction false} PrintedShape(keys: seq<string>, m: Mapping)
    requires keys != [] && forall k :: k in keys ==> k in m
    ensures var text := Printed(keys, m);
      && ColonAt(text, |keys[0]|) && text[|text| - 1] == '\n'
      && (|keys| > 1 ==> TwoColons(text))
    decreases |keys|
  {
    var text, rest := Printed(keys, m), Printed(keys[1..], m);
    var before := |keys[0]| + 1 + |m[keys[0]]| + 1;
    assert text == keys[0] + ":" + m[keys[0]] + "\n" + rest;
    if |keys| > 1 {
      PrintedShape(keys[1..], m);
      assert text[before..] == rest;
      assert ColonAt(text, |keys[0]|) && ColonAt(text, before + |keys[1..][0]|);
    }
  }

  /** Its text has one colon alone exactly when the mapping has one entry, without a colon in key or value. */
  lemma ColonsOf(m: Mapping)
    requires m != map[]
    ensures TwoColons(Text(m)) <==> |m| > 1 || exists k :: k in m && (':' in k || ':' in m[k])
  {
    var keys := Sorted(m.Keys);
    PrintedShape(keys, m);
    if |m| == 1 {
      var k := keys[0];
      assert k in keys;
      assert m.Keys == {k};
      assert m == map[k := m[k]];
      OneEntryText(k, m[k]);
      ColonsOfOneEntry(k, m[k]);
    }
  }

  lemma ColonsOfOneEntry(k: string, v: string)
    ensures TwoColons(k + (":" + (v + "\n"))) <==> ':' in k || ':' in v
  {
    var text := k + (":" + (v + "\n"));
    assert ColonAt(text, |k|);
    if i :| 0 <= i < |k| && k[i] == ':' {
      assert ColonAt(text, i);
    }
    if i :| 0 <= i < |v| && v[i] == ':' {
      assert ColonAt(text, |k| + 1 + i);
    }
    forall i | ColonAt(text, i) && i != |k|
      ensures ':' in k || ':' in v
    {
      assert i < |k| ==> text[i] == k[i];
      assert |k| < i < |text| - 1 ==> text[i] == v[i - |k| - 1];
    }
  }

  /** A mapping without a colon but its own has one entry, which its text gives away. */
  lemma OneColonDetermines(m: Mapping, i: nat)
    requires m != map[] && !TwoColons(Text(m)) && ColonAt(Text(m), i)
    ensures i + 1 < |Text(m)| && m == Cut(Text(m), i)
  {
    ColonsOf(m);
    var keys := Sorted(m.Keys);
    var k := keys[0];
    assert k in keys;
    assert m.Keys == {k};
    assert m == map[k := m[k]];
    OneEntryText(k, m[k]);
    var text := Text(m);
    assert ColonAt(text, |k|);
    assert i == |k|;
    assert text[..i] == k && text[i + 1..|text| - 1] == m[k];
  }

  ghost predicate HasDouble(m: Mapping) {
    exists n: Mapping :: n != m && Text(n) == Text(m)
  }

  lemma CutsDiffer(text: string, i: nat, j: nat)
    requires i < j && j + 1 < |text|
    ensures Cut(text, i) != Cut(text, j)
  {
    assert text[..i] in Cut(text, i) && |text[..i]| != |text[..j]|;
  }

  lemma TwoCutsPrintAlike(m: Mapping, i: nat, j: nat)
    requires var text := Text(m);
      text != "" && text[|text| - 1] == '\n' && i < j && ColonAt(text, i) && ColonAt(text, j)
    ensures HasDouble(m)
  {
    CutAtColon(Text(m), i);
    CutAtColon(Text(m), j);
    CutsDiffer(Text(m), i, j);
  }

  /** Another mapping prints alike exactly when this one has several entries, or a colon in its one key or value. */
  lemma HasDoubleIff(m: Mapping)
    ensures HasDouble(m) <==> |m| > 1 || exists k :: k in m && (':' in k || ':' in m[k])
  {
    if m != map[] {
      ColonsOf(m);
      PrintedShape(Sorted(m.Keys), m);
      if TwoColons(Text(m)) {
        var i, j :| i < j && ColonAt(Text(m), i) && ColonAt(Text(m), j);
        TwoCutsPrintAlike(m, i, j);
      }
    }
    if HasDouble(m) {
      var n :| n != m && Text(n) == Text(m);
      NoOtherPrintsAlike(m, n);
    }
  }

  lemma NoOtherPrintsAlike(m: Mapping, n: Mapping)
    requires n != m && Text(n) == Text(m)
    ensures m != map[] && TwoColons(Text(m))
  {
    if m != map[] {
      PrintedShape(Sorted(m.Keys), m);
    }
    if n != map[] {
      PrintedShape(Sorted(n.Keys), n);
    }
    if !TwoColons(Text(m)) {
      var i := |Sorted(m.Keys)[0]|;
      OneColonDetermines(m, i);
      OneColonDetermines(n, i);
    }
  }
}
