/**
 * array_merge on ordered arrays, and the accumulation getSummonersByName
 * performs with it: every spell whose id is the requested name is merged
 * into one result array.
 */
module Merge {
  import opened Base
  import opened OrderedMap
  import opened Json
  import opened Lookup
  import opened Search

  /** Assigning every pair of xs in turn: `foreach ($xs as $k => $v) $acc[$k] = $v;`. */
  function PutAll(acc: OMap<Key, Value>, xs: OMap<Key, Value>): (r: OMap<Key, Value>)
    decreases |xs|
  {
    if xs == [] then acc else PutAll(Put(acc, xs[0].0, xs[0].1), xs[1..])
  }

  /**
   * `array_merge($a, $b)`: integer keys are renumbered from 0 in order, a
   * string key is assigned in order, so a later value replaces an earlier
   * one in the earlier one's position.
   */
  function ArrayMerge(a: OMap<Key, Value>, b: OMap<Key, Value>): OMap<Key, Value> {
    PutAll([], Renumber(a + b, 0))
  }

  /** The foreach of getSummonersByName: each spell whose id is the name is merged into the result. */
  function MergeMatches(acc: OMap<Key, Value>, spells: seq<Value>, name: string): OMap<Key, Value>
    decreases |spells|
  {
    if spells == [] then acc
    else
      var acc' := if HasField(spells[0], "id", name) then ArrayMerge(acc, spells[0].entries) else acc;
      MergeMatches(acc', spells[1..], name)
  }

  method MergeLoop(spells: seq<Value>, name: string) returns (acc: OMap<Key, Value>)
    ensures acc == MergeMatches([], spells, name)
  {
    acc := [];
    var i := 0;
    while i < |spells|
      invariant 0 <= i <= |spells|
      invariant MergeMatches([], spells, name) == MergeMatches(acc, spells[i..], name)
    {
      assert spells[i..][0] == spells[i] && spells[i..][1..] == spells[i + 1..];
      var s := spells[i];
      if HasField(s, "id", name) {
        acc := ArrayMerge(acc, s.entries);
      }
      i := i + 1;
    }
  }

  // ---------------------------------------------------------------- emptiness

  lemma PutNonEmpty(m: OMap<Key, Value>, k: Key, v: Value)
    ensures |Put(m, k, v)| >= |m| && Put(m, k, v) != []
  {
    PutShape(m, k, v);
  }

  lemma {:induction false} PutAllNonEmpty(acc: OMap<Key, Value>, xs: OMap<Key, Value>)
    ensures |PutAll(acc, xs)| >= |acc|
    ensures xs != [] ==> PutAll(acc, xs) != []
    decreases |xs|
  {
    if xs != [] {
      PutNonEmpty(acc, xs[0].0, xs[0].1);
      PutAllNonEmpty(Put(acc, xs[0].0, xs[0].1), xs[1..]);
    }
  }

  /** A merge is empty only when both arrays are. */
  lemma ArrayMergeNonEmpty(a: OMap<Key, Value>, b: OMap<Key, Value>)
    ensures ArrayMerge(a, b) == [] <==> a == [] && b == []
  {
    PutAllNonEmpty([], Renumber(a + b, 0));
  }

  /** A matching spell has at least its id. */
  lemma MatchIsNonEmpty(d: Value, name: string)
    requires HasField(d, "id", name)
    ensures d.Arr? && d.entries != []
  {
  }

  /** The accumulation ends non-empty exactly when it started so or some spell matches. */
  lemma {:induction false} MergeMatchesNonEmpty(acc: OMap<Key, Value>, spells: seq<Value>, name: string)
    ensures MergeMatches(acc, spells, name) != [] <==>
      acc != [] || exists i :: 0 <= i < |spells| && HasField(spells[i], "id", name)
    decreases |spells|
  {
    if spells != [] {
      var acc' := if HasField(spells[0], "id", name) then ArrayMerge(acc, spells[0].entries) else acc;
      if HasField(spells[0], "id", name) {
        MatchIsNonEmpty(spells[0], name);
        ArrayMergeNonEmpty(acc, spells[0].entries);
      }
      MergeMatchesNonEmpty(acc', spells[1..], name);
      if exists i :: 0 <= i < |spells| - 1 && HasField(spells[1..][i], "id", name) {
        var i :| 0 <= i < |spells| - 1 && HasField(spells[1..][i], "id", name);
        assert spells[i + 1] == spells[1..][i];
      }
      if exists i :: 0 <= i < |spells| && HasField(spells[i], "id", name) {
        var i :| 0 <= i < |spells| && HasField(spells[i], "id", name);
        if i > 0 { assert spells[1..][i - 1] == spells[i]; }
      }
    }
  }

  // ---------------------------------------------------------------- the merged id

  /** Every 'id' pair of m holds the name. */
  predicate IdsAre(m: OMap<Key, Value>, name: string) {
    forall i :: 0 <= i < |m| && m[i].0 == StrKey("id") ==> m[i].1 == Str(name)
  }

  lemma UniqueIds(m: OMap<Key, Value>, name: string)
    requires UniqueKeys(m) && Get(m, StrKey("id")) == Some(Str(name))
    ensures IdsAre(m, name) && HasKey(m, StrKey("id"))
  {
    var j :| 0 <= j < |m| && m[j] == (StrKey("id"), Str(name));
    forall i | 0 <= i < |m| && m[i].0 == StrKey("id") ensures m[i].1 == Str(name) {
      assert i == j;
    }
  }

  lemma {:induction false} RenumberKeepsIds(m: OMap<Key, Value>, n: int, name: string)
    requires IdsAre(m, name)
    ensures IdsAre(Renumber(m, n), name)
    decreases |m|
  {
    if m != [] {
      var n' := if m[0].0.IntKey? then n + 1 else n;
      assert IdsAre(m[1..], name) by {
        forall i | 0 <= i < |m| - 1 && m[1..][i].0 == StrKey("id") ensures m[1..][i].1 == Str(name) {
          assert m[1..][i] == m[i + 1];
        }
      }
      RenumberKeepsIds(m[1..], n', name);
      var head := if m[0].0.IntKey? then (IntKey(n), m[0].1) else m[0];
      var r := Renumber(m, n);
      assert r == [head] + Renumber(m[1..], n');
      forall i | 0 <= i < |r| && r[i].0 == StrKey("id") ensures r[i].1 == Str(name) {
        if i > 0 { assert r[i] == Renumber(m[1..], n')[i - 1]; }
      }
    }
  }

  lemma {:induction false} PutKeepsIds(m: OMap<Key, Value>, k: Key, v: Value, name: string)
    requires IdsAre(m, name) && (k == StrKey("id") ==> v == Str(name))
    ensures IdsAre(Put(m, k, v), name)
    decreases |m|
  {
    if m != [] && m[0].0 != k {
      assert IdsAre(m[1..], name) by {
        forall i | 0 <= i < |m| - 1 && m[1..][i].0 == StrKey("id") ensures m[1..][i].1 == Str(name) {
          assert m[1..][i] == m[i + 1];
        }
      }
      PutKeepsIds(m[1..], k, v, name);
      var r := Put(m, k, v);
      forall i | 0 <= i < |r| && r[i].0 == StrKey("id") ensures r[i].1 == Str(name) {
        if i > 0 { assert r[i] == Put(m[1..], k, v)[i - 1]; }
      }
    } else if m != [] {
      var r := Put(m, k, v);
      forall i | 0 <= i < |r| && r[i].0 == StrKey("id") ensures r[i].1 == Str(name) {
        if i > 0 { assert r[i] == m[i]; }
      }
    }
  }

  lemma {:induction false} PutAllKeepsIds(acc: OMap<Key, Value>, xs: OMap<Key, Value>, name: string)
    requires IdsAre(acc, name) && IdsAre(xs, name)
    ensures IdsAre(PutAll(acc, xs), name)
    ensures HasKey(acc, StrKey("id")) || HasKey(xs, StrKey("id")) ==> HasKey(PutAll(acc, xs), StrKey("id"))
    decreases |xs|
  {
    if xs != [] {
      PutKeepsIds(acc, xs[0].0, xs[0].1, name);
      assert IdsAre(xs[1..], name) by {
        forall i | 0 <= i < |xs| - 1 && xs[1..][i].0 == StrKey("id") ensures xs[1..][i].1 == Str(name) {
          assert xs[1..][i] == xs[i + 1];
        }
      }
      GetPut(acc, xs[0].0, xs[0].1, StrKey("id"));
      if HasKey(xs, StrKey("id")) && xs[0].0 != StrKey("id") {
        var i :| 0 <= i < |xs| && xs[i].0 == StrKey("id");
        assert xs[1..][i - 1].0 == StrKey("id");
      }
      PutAllKeepsIds(Put(acc, xs[0].0, xs[0].1), xs[1..], name);
    }
  }

  /** Merging a spell whose id is the name into an array whose ids are the name keeps an id, and only that one. */
  lemma ArrayMergeKeepsIds(a: OMap<Key, Value>, b: OMap<Key, Value>, name: string)
    requires IdsAre(a, name) && IdsAre(b, name) && HasKey(b, StrKey("id"))
    ensures IdsAre(ArrayMerge(a, b), name) && HasKey(ArrayMerge(a, b), StrKey("id"))
  {
    assert IdsAre(a + b, name) by {
      forall i | 0 <= i < |a + b| && (a + b)[i].0 == StrKey("id") ensures (a + b)[i].1 == Str(name) {
        if i >= |a| { assert (a + b)[i] == b[i - |a|]; }
      }
    }
    RenumberKeepsIds(a + b, 0, name);
    RenumberKeepsNames(a + b, 0, "id");
    var j :| 0 <= j < |b| && b[j].0 == StrKey("id");
    assert (a + b)[|a| + j].0 == StrKey("id");
    assert Get(a + b, StrKey("id")).Some?;
    PutAllKeepsIds([], Renumber(a + b, 0), name);
  }

  /** The spells that can match are well-formed PHP arrays: no key twice. */
  ghost predicate MatchesWellFormed(spells: seq<Value>, name: string) {
    forall i :: 0 <= i < |spells| && HasField(spells[i], "id", name) ==> UniqueKeys(spells[i].entries)
  }

  /** Whatever is merged, the result's id is the requested name. */
  lemma {:induction false} MergedIdIsName(acc: OMap<Key, Value>, spells: seq<Value>, name: string)
    requires IdsAre(acc, name) && (acc != [] ==> HasKey(acc, StrKey("id")))
    requires MatchesWellFormed(spells, name)
    ensures var r := MergeMatches(acc, spells, name);
      IdsAre(r, name) && (r != [] ==> Get(r, StrKey("id")) == Some(Str(name)))
    decreases |spells|
  {
    var r := MergeMatches(acc, spells, name);
    if spells == [] {
      if acc != [] {
        var v := Get(acc, StrKey("id")).value;
        var i :| 0 <= i < |acc| && acc[i] == (StrKey("id"), v);
      }
    } else {
      var acc' := acc;
      if HasField(spells[0], "id", name) {
        UniqueIds(spells[0].entries, name);
        ArrayMergeKeepsIds(acc, spells[0].entries, name);
        acc' := ArrayMerge(acc, spells[0].entries);
      }
      assert MatchesWellFormed(spells[1..], name) by {
        forall i | 0 <= i < |spells| - 1 && HasField(spells[1..][i], "id", name)
          ensures UniqueKeys(spells[1..][i].entries)
        {
          assert spells[1..][i] == spells[i + 1];
        }
      }
      MergedIdIsName(acc', spells[1..], name);
    }
  }
}
