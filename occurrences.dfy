/**
 * Line lists: a dictionary from a name to the numbers of the lines it
 * occurs on, filled line by line with one entry per occurrence. The
 * extractor keeps its local and its global variables this way.
 */
module Occurrences {
  import opened Common
  import opened Dicts

  /** The line list of `x`, empty when `x` is not a key. */
  function Lines(d: Dict<seq<nat>>, x: string): seq<nat>
  {
    if x in d.entries then d.entries[x] else []
  }

  /** `if x not in d: d[x] = []` followed by `d[x].append(n)`. */
  function Append(d: Dict<seq<nat>>, x: string, n: nat): Dict<seq<nat>>
  {
    var d' := if x in d.entries then d else d.Put(x, []);
    d'.Put(x, d'.entries[x] + [n])
  }

  /** Appends `n` to the list of each name, left to right. */
  function Record(d: Dict<seq<nat>>, names: seq<string>, n: nat): Dict<seq<nat>>
    decreases |names|
  {
    if names == [] then d
    else Append(Record(d, names[..|names| - 1], n), names[|names| - 1], n)
  }

  /** Records the names of each of the first `m` lines, line `j` under number `j`. */
  function RecordAll(d: Dict<seq<nat>>, perLine: seq<seq<string>>, m: nat): Dict<seq<nat>>
    requires m <= |perLine|
  {
    if m == 0 then d else Record(RecordAll(d, perLine, m - 1), perLine[m - 1], m - 1)
  }

  /** Reference definition: line `j` repeated once per occurrence of `x` on it, for each of the first `m` lines in order. */
  function Refs(perLine: seq<seq<string>>, m: nat, x: string): seq<nat>
    requires m <= |perLine|
  {
    if m == 0 then [] else Refs(perLine, m - 1, x) + Repeat<nat>(m - 1, Count(perLine[m - 1], x))
  }

  /** Appending to the list of `x` extends that list by one line and leaves every other list alone. */
  lemma AppendLines(d: Dict<seq<nat>>, x: string, n: nat, y: string)
    ensures Lines(Append(d, x, n), y) == Lines(d, y) + (if y == x then [n] else [])
    ensures y in Append(d, x, n).entries <==> y in d.entries || y == x
  {
  }

  /** Recording a line's names appends the line once per occurrence, and touches no other list. */
  lemma {:induction false} RecordLines(d: Dict<seq<nat>>, names: seq<string>, n: nat, x: string)
    ensures Lines(Record(d, names, n), x) == Lines(d, x) + Repeat<nat>(n, Count(names, x))
    decreases |names|
  {
    if names != [] {
      var init := names[..|names| - 1];
      var last := names[|names| - 1];
      RecordLines(d, init, n, x);
      AppendLines(Record(d, init, n), last, n, x);
      CountSnoc(names, x);
      var c := Count(init, x);
      if last == x {
        assert Repeat<nat>(n, c + 1) == Repeat<nat>(n, c) + [n];
      }
    }
  }

  /** Recording a line's names adds exactly those names as keys. */
  lemma {:induction false} RecordKeys(d: Dict<seq<nat>>, names: seq<string>, n: nat, x: string)
    ensures x in Record(d, names, n).entries <==> x in d.entries || Count(names, x) > 0
    decreases |names|
  {
    if names != [] {
      var init := names[..|names| - 1];
      RecordKeys(d, init, n, x);
      AppendLines(Record(d, init, n), names[|names| - 1], n, x);
      CountSnoc(names, x);
    }
  }

  /** Recording names keeps every key listed once. */
  lemma {:induction false} RecordValid(d: Dict<seq<nat>>, names: seq<string>, n: nat)
    requires d.Valid()
    ensures Record(d, names, n).Valid()
    decreases |names|
  {
    if names != [] {
      var before := Record(d, names[..|names| - 1], n);
      RecordValid(d, names[..|names| - 1], n);
      var x := names[|names| - 1];
      if x !in before.entries {
        PutValid(before, x, []);
      }
      var d' := if x in before.entries then before else before.Put(x, []);
      PutValid(d', x, d'.entries[x] + [n]);
    }
  }

  /** Recording lines appends, to each list, exactly the reference lines of its name. */
  lemma {:induction false} RecordAllLines(d: Dict<seq<nat>>, perLine: seq<seq<string>>, m: nat, x: string)
    requires m <= |perLine|
    ensures Lines(RecordAll(d, perLine, m), x) == Lines(d, x) + Refs(perLine, m, x)
  {
    if m > 0 {
      var before := RecordAll(d, perLine, m - 1);
      RecordAllLines(d, perLine, m - 1, x);
      RecordLines(before, perLine[m - 1], m - 1, x);
      var start := Lines(d, x);
      var earlier := Refs(perLine, m - 1, x);
      var here := Repeat<nat>(m - 1, Count(perLine[m - 1], x));
      assert Lines(RecordAll(d, perLine, m), x) == Lines(before, x) + here;
      assert Refs(perLine, m, x) == earlier + here;
      assert start + earlier + here == start + (earlier + here);
    } else {
      assert Lines(d, x) + [] == Lines(d, x);
    }
  }

  /** Recording lines adds exactly the names with reference lines as keys. */
  lemma {:induction false} RecordAllKeys(d: Dict<seq<nat>>, perLine: seq<seq<string>>, m: nat, x: string)
    requires m <= |perLine|
    ensures x in RecordAll(d, perLine, m).entries <==> x in d.entries || Refs(perLine, m, x) != []
  {
    if m > 0 {
      RecordAllKeys(d, perLine, m - 1, x);
      RecordKeys(RecordAll(d, perLine, m - 1), perLine[m - 1], m - 1, x);
      var c := Count(perLine[m - 1], x);
      assert |Refs(perLine, m, x)| == |Refs(perLine, m - 1, x)| + c;
    }
  }

  /**
   * Every list is non-empty and starts at or before line `n`, and the keys are
   * listed by the first line of their lists: the order in which the names
   * were first seen.
   */
  ghost predicate SeenInOrder(d: Dict<seq<nat>>, n: nat)
  {
    && (forall x :: x in d.entries ==> d.entries[x] != [] && d.entries[x][0] <= n)
    && (forall i, j :: 0 <= i < j < |d.keys| && d.keys[i] in d.entries && d.keys[j] in d.entries ==>
          d.entries[d.keys[i]][0] <= d.entries[d.keys[j]][0])
  }

  /** Extending an existing list keeps its first line, so the order stands. */
  lemma SeenAfterExtend(d: Dict<seq<nat>>, x: string, n: nat)
    requires SeenInOrder(d, n) && x in d.entries
    ensures SeenInOrder(Dict(d.keys, d.entries[x := d.entries[x] + [n]]), n)
  {
    var e := d.entries[x := d.entries[x] + [n]];
    assert forall y :: y in e ==> y in d.entries && e[y][0] == d.entries[y][0];
  }

  /** A new name, first seen on line `n`, goes after every name seen before. */
  lemma SeenAfterAdd(d: Dict<seq<nat>>, x: string, n: nat)
    requires d.Valid() && SeenInOrder(d, n) && x !in d.entries
    ensures SeenInOrder(Dict(d.keys + [x], d.entries[x := [n]]), n)
  {
    var keys := d.keys + [x];
    var e := d.entries[x := [n]];
    forall i, j | 0 <= i < j < |keys| && keys[i] in e && keys[j] in e
      ensures e[keys[i]][0] <= e[keys[j]][0]
    {
      assert keys[i] == d.keys[i] && d.keys[i] in d.entries;
      if j < |d.keys| {
        assert keys[j] == d.keys[j] && d.keys[j] in d.entries;
      }
    }
  }

  /** Appending line `n` keeps the keys in first-seen order. */
  lemma AppendSeenInOrder(d: Dict<seq<nat>>, x: string, n: nat)
    requires d.Valid() && SeenInOrder(d, n)
    ensures Append(d, x, n).Valid() && SeenInOrder(Append(d, x, n), n)
  {
    if x in d.entries {
      assert Append(d, x, n) == Dict(d.keys, d.entries[x := d.entries[x] + [n]]);
      PutValid(d, x, d.entries[x] + [n]);
      SeenAfterExtend(d, x, n);
    } else {
      var d' := d.Put(x, []);
      assert d'.keys == d.keys + [x] && d'.entries[x] == [];
      PutValid(d, x, []);
      PutValid(d', x, [n]);
      assert d'.entries[x] + [n] == [n];
      assert Append(d, x, n) == d'.Put(x, [n]);
      assert d'.entries[x := [n]] == d.entries[x := [n]];
      assert Append(d, x, n) == Dict(d.keys + [x], d.entries[x := [n]]);
      SeenAfterAdd(d, x, n);
    }
  }

  /** Recording the names of line `n` keeps the keys in first-seen order. */
  lemma {:induction false} RecordSeenInOrder(d: Dict<seq<nat>>, names: seq<string>, n: nat)
    requires d.Valid() && SeenInOrder(d, n)
    ensures Record(d, names, n).Valid() && SeenInOrder(Record(d, names, n), n)
    decreases |names|
  {
    if names != [] {
      RecordSeenInOrder(d, names[..|names| - 1], n);
      AppendSeenInOrder(Record(d, names[..|names| - 1], n), names[|names| - 1], n);
    }
  }

  /** Recording lines from an empty dictionary lists the keys in first-seen order. */
  lemma {:induction false} RecordAllSeenInOrder(d: Dict<seq<nat>>, perLine: seq<seq<string>>, m: nat)
    requires m <= |perLine| && d.Valid() && d.keys == []
    ensures RecordAll(d, perLine, m).Valid() && SeenInOrder(RecordAll(d, perLine, m), m)
  {
    if m > 0 {
      var before := RecordAll(d, perLine, m - 1);
      RecordAllSeenInOrder(d, perLine, m - 1);
      RecordSeenInOrder(before, perLine[m - 1], m - 1);
    }
  }

  /** `x` and `y` have lists, and the list of `x` starts no later than that of `y`. */
  ghost predicate FirstLineNoLater(d: Dict<seq<nat>>, x: string, y: string)
  {
    Lines(d, x) != [] && Lines(d, y) != [] && Lines(d, x)[0] <= Lines(d, y)[0]
  }

  /** Each key listed earlier has a first line no later than any key listed after it. */
  ghost predicate KeysByFirstLine(d: Dict<seq<nat>>)
  {
    forall i, j :: 0 <= i < j < |d.keys| ==> FirstLineNoLater(d, d.keys[i], d.keys[j])
  }

  /** In a dictionary filled by recording lines, earlier keys have earlier first lines. */
  lemma RecordAllKeyOrder(d: Dict<seq<nat>>, perLine: seq<seq<string>>, m: nat)
    requires m <= |perLine| && d.Valid() && d.keys == []
    ensures KeysByFirstLine(RecordAll(d, perLine, m))
  {
    var r := RecordAll(d, perLine, m);
    RecordAllSeenInOrder(d, perLine, m);
    forall i, j | 0 <= i < j < |r.keys|
      ensures FirstLineNoLater(r, r.keys[i], r.keys[j])
    {
      var a, b := r.keys[i], r.keys[j];
      assert a in r.keys && b in r.keys;
      assert a in r.entries && b in r.entries;
      assert Lines(r, a) == r.entries[a] && Lines(r, b) == r.entries[b];
    }
  }

  /**
   * `keys` followed by each name of `names` that is not yet listed, in the
   * order the names are first met: the key order of a dictionary after
   * `names` have been recorded into it.
   */
  function FirstSeen(keys: seq<string>, names: seq<string>): seq<string>
    decreases |names|
  {
    if names == [] then keys
    else
      var before := FirstSeen(keys, names[..|names| - 1]);
      var x := names[|names| - 1];
      if x in before then before else before + [x]
  }

  /** The names of the first `m` lines, line after line. */
  function Flatten(perLine: seq<seq<string>>, m: nat): seq<string>
    requires m <= |perLine|
  {
    if m == 0 then [] else Flatten(perLine, m - 1) + perLine[m - 1]
  }

  /** A name is listed exactly when it was a key or occurs among the names. */
  lemma {:induction false} FirstSeenMembers(keys: seq<string>, names: seq<string>, x: string)
    ensures x in FirstSeen(keys, names) <==> x in keys || x in names
    decreases |names|
  {
    if names != [] {
      var init := names[..|names| - 1];
      FirstSeenMembers(keys, init, x);
      assert names == init + [names[|names| - 1]];
    }
  }

  /** The listed keys are `keys` followed by names, each listed at most once. */
  lemma {:induction false} FirstSeenDistinct(keys: seq<string>, names: seq<string>)
    requires forall i, j :: 0 <= i < j < |keys| ==> keys[i] != keys[j]
    ensures var r := FirstSeen(keys, names);
      && keys <= r
      && forall i, j :: 0 <= i < j < |r| ==> r[i] != r[j]
    decreases |names|
  {
    if names != [] {
      FirstSeenDistinct(keys, names[..|names| - 1]);
    }
  }

  /** Taking the names in two parts lists them as taking them at once. */
  lemma {:induction false} FirstSeenConcat(keys: seq<string>, a: seq<string>, b: seq<string>)
    ensures FirstSeen(keys, a + b) == FirstSeen(FirstSeen(keys, a), b)
    decreases |b|
  {
    if b == [] {
      assert a + b == a;
    } else {
      var init := b[..|b| - 1];
      assert (a + b)[..|a + b| - 1] == a + init;
      assert (a + b)[|a + b| - 1] == b[|b| - 1];
      FirstSeenConcat(keys, a, init);
    }
  }

  /** Recording names lists, after the old keys, each new name where it is first met. */
  lemma {:induction false} RecordKeyList(d: Dict<seq<nat>>, names: seq<string>, n: nat)
    requires d.Valid()
    ensures Record(d, names, n).keys == FirstSeen(d.keys, names)
    decreases |names|
  {
    if names != [] {
      var init := names[..|names| - 1];
      var before := Record(d, init, n);
      RecordKeyList(d, init, n);
      RecordValid(d, init, n);
      var x := names[|names| - 1];
      assert x in before.entries <==> x in before.keys;
    }
  }

  /** Recording lines lists, after the old keys, each new name where it is first met. */
  lemma {:induction false} RecordAllKeyList(d: Dict<seq<nat>>, perLine: seq<seq<string>>, m: nat)
    requires m <= |perLine| && d.Valid()
    ensures RecordAll(d, perLine, m).Valid()
    ensures RecordAll(d, perLine, m).keys == FirstSeen(d.keys, Flatten(perLine, m))
  {
    if m > 0 {
      var before := RecordAll(d, perLine, m - 1);
      RecordAllKeyList(d, perLine, m - 1);
      RecordValid(before, perLine[m - 1], m - 1);
      RecordKeyList(before, perLine[m - 1], m - 1);
      FirstSeenConcat(d.keys, Flatten(perLine, m - 1), perLine[m - 1]);
    }
  }

  /** The reference lines come in order, and all lie among the first `m` lines. */
  lemma {:induction false} RefsSorted(perLine: seq<seq<string>>, m: nat, x: string)
    requires m <= |perLine|
    ensures NonDecreasing(Refs(perLine, m, x))
    ensures forall k :: 0 <= k < |Refs(perLine, m, x)| ==> Refs(perLine, m, x)[k] < m
  {
    if m > 0 {
      RefsSorted(perLine, m - 1, x);
      var before := Refs(perLine, m - 1, x);
      var r := Refs(perLine, m, x);
      assert r == before + Repeat<nat>(m - 1, Count(perLine[m - 1], x));
      assert forall k :: |before| <= k < |r| ==> r[k] == m - 1;
      assert forall k :: 0 <= k < |before| ==> r[k] == before[k];
    }
  }

  /** Line `j` occurs in the reference list once per occurrence of `x` on line `j`. */
  lemma {:induction false} RefsCount(perLine: seq<seq<string>>, m: nat, x: string, j: nat)
    requires m <= |perLine|
    ensures Count(Refs(perLine, m, x), j) == if j < m then Count(perLine[j], x) else 0
  {
    if m > 0 {
      RefsCount(perLine, m - 1, x, j);
      var c := Count(perLine[m - 1], x);
      assert Refs(perLine, m, x) == Refs(perLine, m - 1, x) + Repeat<nat>(m - 1, c);
      CountAppend<nat>(Refs(perLine, m - 1, x), Repeat<nat>(m - 1, c), j);
      CountRepeat<nat>(m - 1, c, j);
    }
  }

  /** Every reference line is one of the first `m` lines, and one on which `x` occurs. */
  lemma {:induction false} RefsMembers(perLine: seq<seq<string>>, m: nat, x: string)
    requires m <= |perLine|
    ensures forall k :: 0 <= k < |Refs(perLine, m, x)| ==>
      Refs(perLine, m, x)[k] < m && x in perLine[Refs(perLine, m, x)[k]]
  {
    if m > 0 {
      RefsMembers(perLine, m - 1, x);
      var before := Refs(perLine, m - 1, x);
      var c := Count(perLine[m - 1], x);
      var r := Refs(perLine, m, x);
      assert r == before + Repeat<nat>(m - 1, c);
      if c > 0 {
        CountPositive(perLine[m - 1], x);
      }
      forall k | 0 <= k < |r| ensures r[k] < m && x in perLine[r[k]] {
        if k < |before| {
          assert r[k] == before[k];
        } else {
          assert r[k] == m - 1;
        }
      }
    }
  }

  /** No reference lines means no occurrence. */
  lemma {:induction false} RefsEmpty(perLine: seq<seq<string>>, m: nat, x: string)
    requires m <= |perLine| && Refs(perLine, m, x) == []
    ensures forall j :: 0 <= j < m ==> x !in perLine[j]
  {
    if m > 0 {
      var c := Count(perLine[m - 1], x);
      assert |Refs(perLine, m, x)| == |Refs(perLine, m - 1, x)| + c;
      RefsEmpty(perLine, m - 1, x);
      CountPositive(perLine[m - 1], x);
    }
  }

  /** The first reference line is the first line on which `x` occurs. */
  lemma {:induction false} RefsFirst(perLine: seq<seq<string>>, m: nat, x: string)
    requires m <= |perLine| && Refs(perLine, m, x) != []
    ensures var r := Refs(perLine, m, x);
      && r[0] < m && x in perLine[r[0]]
      && forall j :: 0 <= j < r[0] ==> x !in perLine[j]
  {
    var earlier := Refs(perLine, m - 1, x);
    var c := Count(perLine[m - 1], x);
    var r := Refs(perLine, m, x);
    assert r == earlier + Repeat<nat>(m - 1, c);
    if earlier != [] {
      RefsFirst(perLine, m - 1, x);
      assert r[0] == earlier[0];
    } else {
      RefsEmpty(perLine, m - 1, x);
      assert r[0] == m - 1;
      CountPositive(perLine[m - 1], x);
    }
  }

  /** There are reference lines exactly when `x` occurs on one of the first `m` lines. */
  lemma RefsNonEmpty(perLine: seq<seq<string>>, m: nat, x: string)
    requires m <= |perLine|
    ensures Refs(perLine, m, x) != [] <==> exists j :: 0 <= j < m && x in perLine[j]
  {
    if Refs(perLine, m, x) != [] {
      RefsFirst(perLine, m, x);
    } else {
      RefsEmpty(perLine, m, x);
    }
  }
}
