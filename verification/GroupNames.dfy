/** The group-items annotation: names sorted and joined with ", ", and split again when one more
    name is added. */
module GroupNames {

  const SEPARATOR := ", "

  function Join(names: seq<string>): string {
    if |names| == 0 then ""
    else if |names| == 1 then names[0]
    else names[0] + SEPARATOR + Join(names[1..])
  }

  predicate SeparatorAt(s: string, i: nat) {
    i + 2 <= |s| && s[i] == ',' && s[i + 1] == ' '
  }

  /** The first position of the separator at or after `i`, or the length if there is none. */
  function FindSeparator(s: string, i: nat): (j: nat)
    requires i <= |s|
    ensures i <= j <= |s|
    ensures forall k :: i <= k < j ==> !SeparatorAt(s, k)
    ensures j < |s| ==> SeparatorAt(s, j)
    decreases |s| - i
  {
    if i == |s| || SeparatorAt(s, i) then i else FindSeparator(s, i + 1)
  }

  function Split(s: string): (names: seq<string>)
    ensures |names| >= 1
    decreases |s|
  {
    var j := FindSeparator(s, 0);
    if j == |s| then [s] else [s[..j]] + Split(s[j + 2..])
  }

  /** A name that the separator cannot be found in. Kubernetes names hold no comma at all. */
  predicate Plain(name: string) {
    forall i :: 0 <= i < |name| ==> !SeparatorAt(name, i)
  }

  predicate AllPlain(names: seq<string>) {
    forall i :: 0 <= i < |names| ==> Plain(names[i])
  }

  /** Splitting recovers the joined names exactly when the separator occurs in none of them. */
  lemma SplitJoin(names: seq<string>)
    requires |names| >= 1
    ensures Split(Join(names)) == names <==> AllPlain(names)
  {
    if AllPlain(names) {
      SplitOfJoin(names);
    }
    if Split(Join(names)) == names {
      SplitIsPlain(Join(names));
    }
  }

  lemma {:induction false} SplitOfJoin(names: seq<string>)
    requires |names| >= 1 && AllPlain(names)
    ensures Split(Join(names)) == names
  {
    var s := Join(names);
    var first := names[0];
    if |names| == 1 {
      assert FindSeparator(s, 0) == |s|;
    } else {
      var rest := Join(names[1..]);
      assert s == first + SEPARATOR + rest;
      forall k | 0 <= k < |first| ensures !SeparatorAt(s, k) {
        assert s[k] == first[k];
        if k + 1 < |first| {
          assert s[k + 1] == first[k + 1];
          assert !SeparatorAt(first, k);
        } else {
          assert s[k + 1] == ',';
        }
      }
      assert SeparatorAt(s, |first|);
      assert |s| > |first|;
      assert FindSeparator(s, 0) == |first|;
      assert s[..|first|] == first && s[|first| + 2..] == rest;
      SplitOfJoin(names[1..]);
    }
  }

  lemma {:induction false} SplitIsPlain(s: string)
    ensures AllPlain(Split(s))
    decreases |s|
  {
    var j := FindSeparator(s, 0);
    if j < |s| {
      SplitIsPlain(s[j + 2..]);
      forall i | 0 <= i < j ensures !SeparatorAt(s[..j], i) {
        assert !SeparatorAt(s, i);
      }
    }
  }

  // ---------------------------------------------------------------- sorting

  /** Byte-wise order, as sort.Strings uses it. */
  predicate AtMost(a: string, b: string) {
    |a| == 0 || (|b| > 0 && (a[0] < b[0] || (a[0] == b[0] && AtMost(a[1..], b[1..]))))
  }

  lemma {:induction false} AtMostIsTotal(a: string, b: string)
    ensures AtMost(a, b) || AtMost(b, a)
  {
    if |a| > 0 && |b| > 0 && a[0] == b[0] {
      AtMostIsTotal(a[1..], b[1..]);
    }
  }

  lemma {:induction false} AtMostIsTransitive(a: string, b: string, c: string)
    requires AtMost(a, b) && AtMost(b, c)
    ensures AtMost(a, c)
  {
    if |a| > 0 && a[0] == b[0] && b[0] == c[0] {
      AtMostIsTransitive(a[1..], b[1..], c[1..]);
    }
  }

  predicate Sorted(names: seq<string>) {
    forall i, j :: 0 <= i < j < |names| ==> AtMost(names[i], names[j])
  }

  function Place(name: string, names: seq<string>): (r: seq<string>)
    ensures multiset(r) == multiset(names) + multiset{name}
  {
    if names == [] then [name]
    else if AtMost(name, names[0]) then [name] + names
    else
      assert names == [names[0]] + names[1..];
      [names[0]] + Place(name, names[1..])
  }

  lemma {:induction false} PlaceKeepsSorted(name: string, names: seq<string>)
    requires Sorted(names)
    ensures Sorted(Place(name, names))
  {
    if names != [] {
      if AtMost(name, names[0]) {
        forall j | 0 <= j < |names| ensures AtMost(name, names[j]) {
          if j > 0 {
            AtMostIsTransitive(name, names[0], names[j]);
          }
        }
      } else {
        AtMostIsTotal(name, names[0]);
        PlaceKeepsSorted(name, names[1..]);
        var rest := Place(name, names[1..]);
        forall j | 0 <= j < |rest| ensures AtMost(names[0], rest[j]) {
          assert rest[j] in multiset(rest);
          assert rest[j] == name || rest[j] in names[1..];
        }
      }
    }
  }

  function Sort(names: seq<string>): (r: seq<string>)
    ensures multiset(r) == multiset(names)
  {
    if names == [] then []
    else
      assert names == names[..|names| - 1] + [names[|names| - 1]];
      Place(names[|names| - 1], Sort(names[..|names| - 1]))
  }

  lemma {:induction false} SortSorts(names: seq<string>)
    ensures Sorted(Sort(names))
  {
    if names != [] {
      SortSorts(names[..|names| - 1]);
      PlaceKeepsSorted(names[|names| - 1], Sort(names[..|names| - 1]));
    }
  }

  lemma SameNamesPlain(a: seq<string>, b: seq<string>)
    requires multiset(a) == multiset(b) && AllPlain(a)
    ensures AllPlain(b)
  {
    forall i | 0 <= i < |b| ensures Plain(b[i]) {
      assert b[i] in multiset(b);
    }
  }

  /** The annotation for the given names. */
  function GroupItems(names: seq<string>): string {
    Join(Sort(names))
  }

  /** Reading the annotation back gives the names in sorted order. */
  lemma GroupItemsRead(names: seq<string>)
    requires |names| >= 1 && AllPlain(names)
    ensures Split(GroupItems(names)) == Sort(names) && Sorted(Sort(names)) && AllPlain(Sort(names))
    ensures multiset(Split(GroupItems(names))) == multiset(names)
  {
    SortSorts(names);
    SameNamesPlain(names, Sort(names));
    assert |Sort(names)| == |multiset(Sort(names))| == |multiset(names)| == |names|;
    SplitJoin(Sort(names));
  }
}
