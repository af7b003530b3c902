/**
 * The `usort` by name of orderAcsSummoners and parseChampions: entries are
 * ordered by `strcasecmp($a['name'] ?? '', $b['name'] ?? '')`. PHP's sort is
 * stable, so the outcome is the unique stable ordering, given here by an
 * insertion sort; a comparator typed `array` raises a TypeError as soon as it
 * is handed anything else.
 */
module NameSort {
  import opened Base
  import opened OrderedMap
  import opened Json
  import opened Text

  /**
   * `$a['name'] ?? ''` as strcasecmp receives it without strict types: a
   * string as it is, an integer as its decimal writing, true as "1", false
   * and a missing or null name as "". An array name never reaches the
   * comparison (see NameComparable).
   */
  function SortName(d: Value): string {
    match Field(d, "name")
    case Some(Str(s)) => s
    case Some(Num(n)) => IntText(n)
    case Some(Bool(b)) => if b then "1" else ""
    case _ => ""
  }

  /**
   * The sort and its proofs are written for any sort key; SortByName and the
   * lemmas about it instantiate the key with SortName. Keeping the key a
   * parameter keeps the name lookup out of the proofs.
   */
  function InsertBy<T>(key: T -> string, x: T, s: seq<T>): (r: seq<T>)
    ensures |r| == |s| + 1
  {
    if s == [] then [x]
    else if CaseLeq(key(x), key(s[0])) then [x] + s
    else [s[0]] + InsertBy(key, x, s[1..])
  }

  function SortBy<T>(key: T -> string, xs: seq<T>): (r: seq<T>)
    ensures |r| == |xs|
  {
    if xs == [] then [] else InsertBy(key, xs[0], SortBy(key, xs[1..]))
  }

  predicate SortedBy<T>(key: T -> string, s: seq<T>) {
    forall i, j :: 0 <= i < j < |s| ==> CaseLeq(key(s[i]), key(s[j]))
  }

  /** The entries whose case-folded key is n, in order. */
  function WithKey<T>(key: T -> string, s: seq<T>, n: string): seq<T> {
    if s == [] then []
    else (if Lower(key(s[0])) == n then [s[0]] else []) + WithKey(key, s[1..], n)
  }

  /** a sorts before or with every entry of s. */
  predicate LeqAll<T>(key: T -> string, a: string, s: seq<T>) {
    forall j :: 0 <= j < |s| ==> CaseLeq(a, key(s[j]))
  }

  /** usort by `$a['name'] ?? ''`: x goes before the first element it does not sort after. */
  function SortByName(xs: seq<Value>): (r: seq<Value>)
    ensures |r| == |xs|
  {
    SortBy(SortName, xs)
  }

  predicate SortedByName(s: seq<Value>) {
    SortedBy(SortName, s)
  }

  function WithName(s: seq<Value>, n: string): seq<Value> {
    WithKey(SortName, s, n)
  }

  /**
   * What the comparator accepts: an array (its parameters are typed `array`)
   * whose name is not itself an array (strcasecmp takes strings, and an
   * array is the one value it cannot be cast from).
   */
  predicate NameComparable(d: Value) {
    d.Arr? && !(Field(d, "name").Some? && Field(d, "name").value.Arr?)
  }

  predicate AllComparable(xs: seq<Value>) {
    forall i :: 0 <= i < |xs| ==> NameComparable(xs[i])
  }

  /** usort with the typed comparator: it is called on every element once there are two. */
  function SortEntries(xs: seq<Value>): (r: Result<seq<Value>>)
    ensures r.Err? <==> |xs| >= 2 && exists i :: 0 <= i < |xs| && !NameComparable(xs[i])
    ensures r.Err? ==> r.error == TypeFailure
    ensures r.Ok? ==> SortedByName(r.value) && multiset(r.value) == multiset(xs)
  {
    SortByNameSortsAndPermutes(xs);
    if |xs| >= 2 && !AllComparable(xs) then Err(TypeFailure) else Ok(SortByName(xs))
  }

  // ---------------------------------------------------------------- properties

  /** strcasecmp sees the integer 5 as "5", which sorts after "0" whichever comes first. */
  lemma IntNameSortsAsDecimal()
    ensures var a := Arr([(StrKey("name"), Str("0"))]);
      var b := Arr([(StrKey("name"), Num(5))]);
      SortEntries([a, b]) == Ok([a, b]) && SortEntries([b, a]) == Ok([a, b])
  {
    var a := Arr([(StrKey("name"), Str("0"))]);
    var b := Arr([(StrKey("name"), Num(5))]);
    NameKey();
    assert SortName(a) == "0" && SortName(b) == "5";
    assert Lower("0") == "0" && Lower("5") == "5";
    assert CaseLeq("0", "5") && !CaseLeq("5", "0");
    assert [a, b][1..] == [b] && [b, a][1..] == [a];
    assert SortBy(SortName, [b]) == [b] && SortBy(SortName, [a]) == [a];
    assert SortByName([a, b]) == InsertBy(SortName, a, SortBy(SortName, [b])) == [a, b];
    assert SortByName([b, a]) == InsertBy(SortName, b, SortBy(SortName, [a])) == [a, b];
    assert AllComparable([a, b]) && AllComparable([b, a]);
  }

  /** true is read as "1", a negative integer with its sign. */
  lemma ScalarNamesCast()
    ensures SortName(Arr([(StrKey("name"), Bool(true))])) == "1"
    ensures SortName(Arr([(StrKey("name"), Bool(false))])) == ""
    ensures SortName(Arr([(StrKey("name"), Num(-3))])) == "-3"
  {
    NameKey();
  }

  /** An array-valued name is a TypeError once there is a comparison to make. */
  lemma ArrayNameFails()
    ensures var a := Arr([(StrKey("name"), Arr([(IntKey(0), Num(1))]))]);
      var b := Arr([(StrKey("name"), Str("a"))]);
      SortEntries([a, b]) == Err(TypeFailure) && SortEntries([a]) == Ok([a])
  {
    var a := Arr([(StrKey("name"), Arr([(IntKey(0), Num(1))]))]);
    NameKey();
    assert !NameComparable(a);
  }

  lemma NameKey()
    ensures KeyOf("name") == StrKey("name")
  {
    assert !CanonicalInt("name") by { assert "name"[0] == 'n'; }
  }

  lemma {:induction false} InsertPermutes<T>(key: T -> string, x: T, s: seq<T>)
    ensures multiset(InsertBy(key, x, s)) == multiset(s) + multiset{x}
    decreases |s|
  {
    if s != [] && !CaseLeq(key(x), key(s[0])) {
      InsertPermutes(key, x, s[1..]);
      assert s == [s[0]] + s[1..];
    }
  }

  lemma SortedPair<T>(key: T -> string, s: seq<T>, i: int, j: int)
    requires SortedBy(key, s) && 0 <= i < j < |s|
    ensures CaseLeq(key(s[i]), key(s[j]))
  {
  }

  lemma SortedConsIntro<T>(key: T -> string, y: T, t: seq<T>)
    requires LeqAll(key, key(y), t) && SortedBy(key, t)
    ensures SortedBy(key, [y] + t)
  {
    var r := [y] + t;
    forall i, j | 0 <= i < j < |r| ensures CaseLeq(key(r[i]), key(r[j])) {
      assert r[j] == t[j - 1];
      if i > 0 {
        SortedPair(key, t, i - 1, j - 1);
        assert r[i] == t[i - 1];
      }
    }
  }

  lemma SortedConsElim<T>(key: T -> string, y: T, t: seq<T>)
    requires SortedBy(key, [y] + t)
    ensures LeqAll(key, key(y), t) && SortedBy(key, t)
  {
    var r := [y] + t;
    forall j | 0 <= j < |t| ensures CaseLeq(key(y), key(t[j])) {
      SortedPair(key, r, 0, j + 1);
      assert r[0] == y && r[j + 1] == t[j];
    }
    forall i, j | 0 <= i < j < |t| ensures CaseLeq(key(t[i]), key(t[j])) {
      SortedPair(key, r, i + 1, j + 1);
      assert r[i + 1] == t[i] && r[j + 1] == t[j];
    }
  }

  lemma {:induction false} InsertBelow<T>(key: T -> string, a: string, x: T, s: seq<T>)
    requires LeqAll(key, a, s) && CaseLeq(a, key(x))
    ensures LeqAll(key, a, InsertBy(key, x, s))
    decreases |s|
  {
    if s != [] && !CaseLeq(key(x), key(s[0])) {
      InsertBelow(key, a, x, s[1..]);
      var t := InsertBy(key, x, s[1..]);
      forall j | 0 <= j < |[s[0]] + t| ensures CaseLeq(a, key(([s[0]] + t)[j])) {
        if j > 0 { assert ([s[0]] + t)[j] == t[j - 1]; }
      }
    }
  }

  lemma {:induction false} LeqAllTransitive<T>(key: T -> string, a: string, b: string, s: seq<T>)
    requires CaseLeq(a, b) && LeqAll(key, b, s)
    ensures LeqAll(key, a, s)
  {
    forall j | 0 <= j < |s| ensures CaseLeq(a, key(s[j])) {
      CaseLeqTransitive(a, b, key(s[j]));
    }
  }

  lemma {:induction false} InsertSorted<T>(key: T -> string, x: T, s: seq<T>)
    requires SortedBy(key, s)
    ensures SortedBy(key, InsertBy(key, x, s))
    decreases |s|
  {
    if s != [] {
      assert s == [s[0]] + s[1..];
      SortedConsElim(key, s[0], s[1..]);
      if CaseLeq(key(x), key(s[0])) {
        LeqAllTransitive(key, key(x), key(s[0]), s[1..]);
        assert LeqAll(key, key(x), s) by {
          forall j | 0 <= j < |s| ensures CaseLeq(key(x), key(s[j])) {
            if j > 0 { assert s[j] == s[1..][j - 1]; }
          }
        }
        SortedConsIntro(key, x, s);
      } else {
        CaseLeqTotal(key(x), key(s[0]));
        InsertSorted(key, x, s[1..]);
        InsertBelow(key, key(s[0]), x, s[1..]);
        SortedConsIntro(key, s[0], InsertBy(key, x, s[1..]));
      }
    }
  }

  lemma {:induction false} SortBySortsAndPermutes<T>(key: T -> string, xs: seq<T>)
    ensures SortedBy(key, SortBy(key, xs))
    ensures multiset(SortBy(key, xs)) == multiset(xs)
    decreases |xs|
  {
    if xs != [] {
      SortBySortsAndPermutes(key, xs[1..]);
      InsertSorted(key, xs[0], SortBy(key, xs[1..]));
      InsertPermutes(key, xs[0], SortBy(key, xs[1..]));
      assert xs == [xs[0]] + xs[1..];
    }
  }

  /** The sorted list is ordered by name, case-insensitively, and holds exactly the input entries. */
  lemma SortByNameSortsAndPermutes(xs: seq<Value>)
    ensures SortedByName(SortByName(xs))
    ensures multiset(SortByName(xs)) == multiset(xs)
  {
    SortBySortsAndPermutes(SortName, xs);
  }

  lemma WithKeyCons<T>(key: T -> string, y: T, t: seq<T>, n: string)
    ensures WithKey(key, [y] + t, n) == (if Lower(key(y)) == n then [y] else []) + WithKey(key, t, n)
  {
    assert ([y] + t)[0] == y && ([y] + t)[1..] == t;
  }

  /** A key that sorts strictly after another has a different case-folded form. */
  lemma AfterDiffers(a: string, b: string)
    requires !CaseLeq(a, b)
    ensures Lower(a) != Lower(b)
  {
    LexLeqReflexive(Lower(a));
  }

  lemma {:induction false} InsertKeepsRuns<T>(key: T -> string, x: T, s: seq<T>, n: string)
    ensures WithKey(key, InsertBy(key, x, s), n) == (if Lower(key(x)) == n then [x] else []) + WithKey(key, s, n)
    decreases |s|
  {
    if s == [] {
      WithKeyCons(key, x, [], n);
    } else if CaseLeq(key(x), key(s[0])) {
      assert InsertBy(key, x, s) == [x] + s;
      WithKeyCons(key, x, s, n);
    } else {
      var t := InsertBy(key, x, s[1..]);
      assert InsertBy(key, x, s) == [s[0]] + t;
      AfterDiffers(key(x), key(s[0]));
      InsertKeepsRuns(key, x, s[1..], n);
      WithKeyCons(key, s[0], t, n);
      WithKeyCons(key, s[0], s[1..], n);
      assert s == [s[0]] + s[1..];
    }
  }

  lemma {:induction false} SortByIsStable<T>(key: T -> string, xs: seq<T>, n: string)
    ensures WithKey(key, SortBy(key, xs), n) == WithKey(key, xs, n)
    decreases |xs|
  {
    if xs != [] {
      SortByIsStable(key, xs[1..], n);
      InsertKeepsRuns(key, xs[0], SortBy(key, xs[1..]), n);
      WithKeyCons(key, xs[0], xs[1..], n);
      assert xs == [xs[0]] + xs[1..];
    }
  }

  /** Stability: entries whose names differ only in case keep their input order. */
  lemma SortByNameIsStable(xs: seq<Value>, n: string)
    ensures WithName(SortByName(xs), n) == WithName(xs, n)
  {
    SortByIsStable(SortName, xs, n);
  }
}
