/** src/hooks/sort/useSort.ts: with the flag off the list comes back as it
    is; with the flag on, a sorted copy by name. `localeCompare` is replaced
    by lexicographic order on code points; `Array.prototype.sort` is stable,
    so countries with equal names keep their input order. */
module SortHook {
  import opened CountryTypes

  /** `a` sorts no later than `b`: lexicographic order on code points. */
  predicate NameLe(a: string, b: string)
    decreases |a|
  {
    a == [] || (b != [] && (a[0] < b[0] || (a[0] == b[0] && NameLe(a[1..], b[1..]))))
  }

  /** Any two names are comparable. */
  lemma {:induction false} NameLeTotal(a: string, b: string)
    ensures NameLe(a, b) || NameLe(b, a)
    decreases |a|
  {
    if a != [] && b != [] && a[0] == b[0] {
      NameLeTotal(a[1..], b[1..]);
    }
  }

  /** The order is transitive. */
  lemma {:induction false} NameLeTransitive(a: string, b: string, c: string)
    requires NameLe(a, b) && NameLe(b, c)
    ensures NameLe(a, c)
    decreases |a|
  {
    if a != [] && a[0] == b[0] && b[0] == c[0] {
      NameLeTransitive(a[1..], b[1..], c[1..]);
    }
  }

  /** Names that sort no later than each other are equal. */
  lemma {:induction false} NameLeAntisymmetric(a: string, b: string)
    requires NameLe(a, b) && NameLe(b, a)
    ensures a == b
    decreases |a|
  {
    if a != [] {
      NameLeAntisymmetric(a[1..], b[1..]);
      assert a == [a[0]] + a[1..] && b == [b[0]] + b[1..];
    }
  }

  /** Ascending by name. */
  ghost predicate SortedByName(s: seq<Country>) {
    forall i, j :: 0 <= i < j < |s| ==> NameLe(s[i].name, s[j].name)
  }

  /** Put `x` before the first element of `s` whose name does not sort before
      it, so that it lands ahead of the elements with an equal name. */
  function Insert(x: Country, s: seq<Country>): (r: seq<Country>)
    ensures multiset(r) == multiset(s) + multiset{x}
  {
    if s == [] || NameLe(x.name, s[0].name) then [x] + s
    else
      assert s == [s[0]] + s[1..];
      [s[0]] + Insert(x, s[1..])
  }

  /** Insertion sort, by name. */
  function SortByName(s: seq<Country>): (r: seq<Country>)
    ensures multiset(r) == multiset(s)
  {
    if s == [] then []
    else
      assert s == [s[0]] + s[1..];
      Insert(s[0], SortByName(s[1..]))
  }

  /** `useSort(list, sortOn)`. */
  function UseSort(list: seq<Country>, sortOn: bool): seq<Country> {
    if !sortOn then list else SortByName(list)
  }

  /** Insertion keeps a sorted list sorted. */
  lemma {:induction false} InsertSorted(x: Country, s: seq<Country>)
    requires SortedByName(s)
    ensures SortedByName(Insert(x, s))
  {
    if s == [] || NameLe(x.name, s[0].name) {
      forall k | 0 <= k < |s| ensures NameLe(x.name, s[k].name) {
        if k > 0 { NameLeTransitive(x.name, s[0].name, s[k].name); }
      }
      var r := [x] + s;
      forall i, j | 0 <= i < j < |r| ensures NameLe(r[i].name, r[j].name) {
        if i > 0 { assert r[i] == s[i - 1] && r[j] == s[j - 1]; }
        else { assert r[j] == s[j - 1]; }
      }
    } else {
      NameLeTotal(x.name, s[0].name);
      var t := Insert(x, s[1..]);
      InsertSorted(x, s[1..]);
      forall k | 0 <= k < |t| ensures NameLe(s[0].name, t[k].name) {
        assert t[k] in multiset(t);
        if t[k] != x {
          assert t[k] in multiset(s[1..]);
          var m :| 0 <= m < |s[1..]| && s[1..][m] == t[k];
          assert s[m + 1] == t[k];
        }
      }
    }
  }

  /** The sorted list is ascending by name. */
  lemma {:induction false} SortByNameSorted(s: seq<Country>)
    ensures SortedByName(SortByName(s))
  {
    if s != [] {
      SortByNameSorted(s[1..]);
      InsertSorted(s[0], SortByName(s[1..]));
    }
  }

  /** The countries of `s` named `n`, in order. */
  function Named(s: seq<Country>, n: string): seq<Country> {
    if s == [] then [] else (if s[0].name == n then [s[0]] else []) + Named(s[1..], n)
  }

  /** A single country is selected exactly when it has the name. */
  lemma NamedSingleton(c: Country, n: string)
    ensures Named([c], n) == if c.name == n then [c] else []
  {
    assert [c][1..] == [];
  }

  /** `Named` distributes over concatenation. */
  lemma {:induction false} NamedAppend(a: seq<Country>, b: seq<Country>, n: string)
    ensures Named(a + b, n) == Named(a, n) + Named(b, n)
  {
    if a != [] {
      NamedAppend(a[1..], b, n);
      assert (a + b)[1..] == a[1..] + b;
    } else {
      assert a + b == b;
    }
  }

  /** Putting `c` in front of both sides keeps `x` ahead of the countries
      named like it, provided `c` is named differently from `x`. */
  lemma NamedSwapFront(x: Country, c: Country, t: seq<Country>, rest: seq<Country>, n: string)
    requires x.name != c.name
    requires Named(t, n) == Named([x], n) + Named(rest, n)
    ensures Named([c] + t, n) == Named([x], n) + Named([c] + rest, n)
  {
    NamedSingleton(x, n);
    NamedSingleton(c, n);
    NamedAppend([c], t, n);
    NamedAppend([c], rest, n);
  }

  /** Inserting `x` puts it ahead of every element with the same name and
      leaves the others in their order. */
  lemma {:induction false} InsertStable(x: Country, s: seq<Country>, n: string)
    ensures Named(Insert(x, s), n) == Named([x], n) + Named(s, n)
  {
    if s == [] || NameLe(x.name, s[0].name) {
      NamedAppend([x], s, n);
    } else {
      // NameLe is reflexive, so x and s[0] have different names.
      NameLeTotal(x.name, x.name);
      InsertStable(x, s[1..], n);
      NamedSwapFront(x, s[0], Insert(x, s[1..]), s[1..], n);
      assert s == [s[0]] + s[1..];
    }
  }

  /** Stability: among countries with the same name, the sorted list keeps
      the input order. */
  lemma {:induction false} SortByNameStable(s: seq<Country>, n: string)
    ensures Named(SortByName(s), n) == Named(s, n)
  {
    if s != [] {
      SortByNameStable(s[1..], n);
      InsertStable(s[0], SortByName(s[1..]), n);
      NamedAppend([s[0]], s[1..], n);
      assert s == [s[0]] + s[1..];
    }
  }

  /** What `useSort` promises: with the flag off, the input itself; with the
      flag on, the same countries (a permutation, so the same length), in
      ascending order of name, with equal names in input order. The input is
      a value and is never changed. */
  lemma UseSortSpec(list: seq<Country>, sortOn: bool)
    ensures !sortOn ==> UseSort(list, sortOn) == list
    ensures sortOn ==> SortedByName(UseSort(list, sortOn))
    ensures multiset(UseSort(list, sortOn)) == multiset(list)
    ensures |UseSort(list, sortOn)| == |list|
    ensures forall n :: Named(UseSort(list, sortOn), n) == Named(list, n)
  {
    if sortOn {
      SortByNameSorted(list);
      forall n ensures Named(UseSort(list, sortOn), n) == Named(list, n) {
        SortByNameStable(list, n);
      }
      assert |multiset(SortByName(list))| == |multiset(list)|;
    }
  }

  /** Sorting a list already in order changes nothing; in particular sorting
      twice is sorting once. */
  lemma {:induction false} SortSortedIsIdentity(s: seq<Country>)
    requires SortedByName(s)
    ensures SortByName(s) == s
  {
    if s != [] {
      SortSortedIsIdentity(s[1..]);
      assert s[1..] == [] || NameLe(s[0].name, s[1].name);
    }
  }

  /** Turning the sort on twice gives the same list as once. */
  lemma UseSortIdempotent(list: seq<Country>)
    ensures UseSort(UseSort(list, true), true) == UseSort(list, true)
  {
    SortByNameSorted(list);
    SortSortedIsIdentity(SortByName(list));
  }
}
