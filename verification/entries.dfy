/**
 * Directory entries and the entry set that merges listings from several
 * sources: the first entry seen for a name is kept, later entries with the
 * same name are dropped, and the listing comes out sorted by name.
 */
module Entries {
  import opened Results
  import Strings

  /** fs.DirEntry: a name, whether it is a directory, and its mode bits. */
  datatype DirEntry = DirEntry(name: string, isDir: bool, mode: nat)

  /** The names occurring in a listing. */
  function Names(s: seq<DirEntry>): set<string>
  {
    set e | e in s :: e.name
  }

  /** No two entries of `s` share a name. */
  predicate DistinctNames(s: seq<DirEntry>)
  {
    forall i, j :: 0 <= i < j < |s| ==> s[i].name != s[j].name
  }

  /** The names of `s` strictly increase in Go's string order. */
  predicate Ascending(s: seq<DirEntry>)
  {
    forall i, j :: 0 <= i < j < |s| ==> Strings.Less(s[i].name, s[j].name)
  }

  lemma NamesAppend(a: seq<DirEntry>, b: seq<DirEntry>)
    ensures Names(a + b) == Names(a) + Names(b)
  {
    forall e | e in a + b ensures e in a || e in b { }
  }

  /** Every name of `s` comes after `n`. */
  predicate Below(n: string, s: seq<DirEntry>)
  {
    forall i :: 0 <= i < |s| ==> Strings.Less(n, s[i].name)
  }

  lemma AscendingCons(x: DirEntry, s: seq<DirEntry>)
    requires Ascending(s) && Below(x.name, s)
    ensures Ascending([x] + s)
  {
    var r := [x] + s;
    forall i, j | 0 <= i < j < |r| ensures Strings.Less(r[i].name, r[j].name) {
      if i > 0 { assert r[i] == s[i - 1] && r[j] == s[j - 1]; }
      else { assert r[j] == s[j - 1]; }
    }
  }

  /** Below the head of an ascending listing is below all of it. */
  lemma BelowHead(n: string, s: seq<DirEntry>)
    requires Ascending(s) && s != [] && Strings.Less(n, s[0].name)
    ensures Below(n, s)
  {
    forall k | 1 <= k < |s| ensures Strings.Less(n, s[k].name) {
      Strings.LessTransitive(n, s[0].name, s[k].name);
    }
  }

  /** A listing made of the entries of `s` and `e` is below whatever both are. */
  lemma BelowInsert(n: string, s: seq<DirEntry>, e: DirEntry, r: seq<DirEntry>)
    requires Below(n, s) && Strings.Less(n, e.name)
    requires multiset(r) == multiset(s) + multiset{e}
    ensures Below(n, r)
  {
    forall i | 0 <= i < |r| ensures Strings.Less(n, r[i].name) {
      assert r[i] in multiset(r);
      if r[i] != e {
        assert r[i] in multiset(s);
        var k :| 0 <= k < |s| && s[k] == r[i];
      }
    }
  }

  /** The first entry of `s` called `n`, if there is one. */
  function FirstNamed(s: seq<DirEntry>, n: string): (r: Option<DirEntry>)
    ensures r.None? <==> n !in Names(s)
    ensures r.Some? ==> r.value in s && r.value.name == n
  {
    if s == [] then None
    else if s[0].name == n then Some(s[0])
    else
      assert Names(s) == {s[0].name} + Names(s[1..]) by {
        assert s == [s[0]] + s[1..];
      }
      FirstNamed(s[1..], n)
  }

  /** Looking a name up in a concatenation looks in the first part first. */
  lemma {:induction false} FirstNamedAppend(a: seq<DirEntry>, b: seq<DirEntry>, n: string)
    ensures FirstNamed(a + b, n) == if FirstNamed(a, n).Some? then FirstNamed(a, n) else FirstNamed(b, n)
  {
    if a != [] {
      assert (a + b)[1..] == a[1..] + b;
      FirstNamedAppend(a[1..], b, n);
    } else {
      assert a + b == b;
    }
  }

  /** In a listing without duplicate names an entry is found under its own name. */
  lemma {:induction false} FirstNamedDistinct(s: seq<DirEntry>, e: DirEntry)
    requires DistinctNames(s) && e in s
    ensures FirstNamed(s, e.name) == Some(e)
  {
    if s[0] != e {
      assert e in s[1..];
      var k :| 1 <= k < |s| && s[k] == e;
      assert s[0].name != e.name;
      FirstNamedDistinct(s[1..], e);
    }
  }

  /** The names of a non-empty listing: its head's and those of the rest. */
  lemma NamesCons(s: seq<DirEntry>)
    requires s != []
    ensures Names(s) == {s[0].name} + Names(s[1..])
  {
    assert s == [s[0]] + s[1..];
    NamesAppend([s[0]], s[1..]);
  }

  /**
   * The entries of `des` that the entry set keeps when the names in `seen`
   * are already present: each entry is kept when its name is not seen yet,
   * and its name is seen from then on.
   */
  function KeepFirst(seen: set<string>, des: seq<DirEntry>): (r: seq<DirEntry>)
    ensures |r| <= |des|
    decreases |des|
  {
    if des == [] then []
    else if des[0].name in seen then KeepFirst(seen, des[1..])
    else [des[0]] + KeepFirst(seen + {des[0].name}, des[1..])
  }

  /**
   * What is kept has no duplicate names, its names are the new names of the
   * batch, and every kept entry comes from the batch.
   */
  lemma {:induction false} KeepFirstKeeps(seen: set<string>, des: seq<DirEntry>)
    ensures DistinctNames(KeepFirst(seen, des))
    ensures Names(KeepFirst(seen, des)) == Names(des) - seen
    ensures forall e :: e in KeepFirst(seen, des) ==> e in des
    decreases |des|
  {
    if des != [] {
      var d, rest := des[0], des[1..];
      NamesCons(des);
      if d.name in seen {
        KeepFirstKeeps(seen, rest);
      } else {
        var kept := KeepFirst(seen + {d.name}, rest);
        KeepFirstKeeps(seen + {d.name}, rest);
        var r := [d] + kept;
        assert r == KeepFirst(seen, des);
        NamesAppend([d], kept);
        forall i, j | 0 <= i < j < |r| ensures r[i].name != r[j].name {
          assert r[j] == kept[j - 1] && kept[j - 1] in kept;
          if i > 0 { assert r[i] == kept[i - 1]; }
        }
      }
    }
  }

  /** Appending what is kept to a valid listing keeps the listing valid. */
  lemma AppendKept(s: seq<DirEntry>, seen: set<string>, des: seq<DirEntry>)
    requires seen == Names(s) && DistinctNames(s)
    ensures Names(s + KeepFirst(seen, des)) == seen + Names(des)
    ensures DistinctNames(s + KeepFirst(seen, des))
  {
    var kept := KeepFirst(seen, des);
    KeepFirstKeeps(seen, des);
    NamesAppend(s, kept);
    var r := s + kept;
    forall i, j | 0 <= i < j < |r| ensures r[i].name != r[j].name {
      if j < |s| {
        assert r[i] == s[i] && r[j] == s[j];
      } else if i < |s| {
        assert r[i] == s[i] && s[i] in s && s[i].name in Names(s);
        var e := kept[j - |s|];
        assert r[j] == e && e in kept && e.name in Names(kept);
      } else {
        assert r[i] == kept[i - |s|] && r[j] == kept[j - |s|];
      }
    }
  }

  /** Adding two batches one after the other keeps what one combined batch keeps. */
  lemma {:induction false} KeepFirstAppend(seen: set<string>, a: seq<DirEntry>, b: seq<DirEntry>)
    ensures KeepFirst(seen, a + b) == KeepFirst(seen, a) + KeepFirst(seen + Names(a), b)
    decreases |a|
  {
    if a == [] {
      assert a + b == b;
      assert Names(a) == {} && seen + Names(a) == seen;
      assert KeepFirst(seen, a) == [];
    } else {
      var d := a[0];
      assert (a + b)[0] == d && (a + b)[1..] == a[1..] + b;
      NamesCons(a);
      if d.name in seen {
        KeepFirstAppend(seen, a[1..], b);
        assert seen + Names(a[1..]) == seen + Names(a);
      } else {
        KeepFirstAppend(seen + {d.name}, a[1..], b);
        assert seen + {d.name} + Names(a[1..]) == seen + Names(a);
      }
    }
  }

  /** One iteration of the entry set's add loop keeps its relation to the batch prefix. */
  lemma AddStep(s0: seq<DirEntry>, seen0: set<string>, des: seq<DirEntry>, k: nat,
                entries: seq<DirEntry>, seen: set<string>)
    requires k < |des|
    requires entries == s0 + KeepFirst(seen0, des[..k]) && seen == seen0 + Names(des[..k])
    ensures des[k].name in seen ==>
              entries == s0 + KeepFirst(seen0, des[..k + 1]) && seen == seen0 + Names(des[..k + 1])
    ensures des[k].name !in seen ==>
              entries + [des[k]] == s0 + KeepFirst(seen0, des[..k + 1]) &&
              seen + {des[k].name} == seen0 + Names(des[..k + 1])
  {
    assert des[..k + 1] == des[..k] + [des[k]];
    KeepFirstAppend(seen0, des[..k], [des[k]]);
    NamesAppend(des[..k], [des[k]]);
    assert Names([des[k]]) == {des[k].name};
  }

  /** The kept entry for a name is the first entry of `des` with that name. */
  lemma {:induction false} KeepFirstFirstNamed(seen: set<string>, des: seq<DirEntry>, n: string)
    requires n !in seen
    ensures FirstNamed(KeepFirst(seen, des), n) == FirstNamed(des, n)
    decreases |des|
  {
    if des != [] {
      var d := des[0];
      if d.name in seen {
        KeepFirstFirstNamed(seen, des[1..], n);
      } else if d.name != n {
        KeepFirstFirstNamed(seen + {d.name}, des[1..], n);
        assert ([d] + KeepFirst(seen + {d.name}, des[1..]))[1..] == KeepFirst(seen + {d.name}, des[1..]);
      }
    }
  }

  /** Two duplicate-free listings with the same entries find the same entry for every name. */
  lemma FirstNamedPermutation(a: seq<DirEntry>, b: seq<DirEntry>, n: string)
    requires DistinctNames(a) && DistinctNames(b)
    requires multiset(a) == multiset(b)
    ensures FirstNamed(a, n) == FirstNamed(b, n)
  {
    PermutationNames(a, b);
    if FirstNamed(a, n).Some? {
      var e := FirstNamed(a, n).value;
      assert e in multiset(a);
      FirstNamedDistinct(b, e);
    }
  }

  /** A strictly ascending listing never repeats a name. */
  lemma AscendingDistinct(s: seq<DirEntry>)
    requires Ascending(s)
    ensures DistinctNames(s)
  {
    forall i, j | 0 <= i < j < |s| ensures s[i].name != s[j].name {
      if s[i].name == s[j].name { Strings.LessIrreflexive(s[i].name); }
    }
  }

  /** A permutation has the same names. */
  lemma PermutationNames(a: seq<DirEntry>, b: seq<DirEntry>)
    requires multiset(a) == multiset(b)
    ensures Names(a) == Names(b)
  {
    forall e ensures e in a <==> e in b {
      assert e in a <==> e in multiset(a);
      assert e in b <==> e in multiset(b);
    }
  }

  /** Inserts `e` into an ascending listing at its place by name. */
  function InsertByName(e: DirEntry, s: seq<DirEntry>): (r: seq<DirEntry>)
    requires Ascending(s) && e.name !in Names(s)
    ensures Ascending(r)
    ensures multiset(r) == multiset(s) + multiset{e}
  {
    if s == [] then [e]
    else if Strings.Less(e.name, s[0].name) then
      BelowHead(e.name, s);
      AscendingCons(e, s);
      [e] + s
    else
      assert s == [s[0]] + s[1..];
      assert s[0] in s;
      Strings.LessTotal(e.name, s[0].name);
      NamesAppend([s[0]], s[1..]);
      var tail := InsertByName(e, s[1..]);
      assert Below(s[0].name, s[1..]) by {
        forall k | 0 <= k < |s[1..]| ensures Strings.Less(s[0].name, s[1..][k].name) {
          assert s[1..][k] == s[k + 1];
        }
      }
      BelowInsert(s[0].name, s[1..], e, tail);
      AscendingCons(s[0], tail);
      [s[0]] + tail
  }

  /** sort.Slice by name over a listing whose names are distinct. */
  function SortByName(s: seq<DirEntry>): (r: seq<DirEntry>)
    requires DistinctNames(s)
    ensures Ascending(r)
    ensures multiset(r) == multiset(s)
  {
    if s == [] then []
    else
      assert s == [s[0]] + s[1..];
      var sorted := SortByName(s[1..]);
      assert s[0].name !in Names(sorted) by {
        forall x | x in sorted ensures x.name != s[0].name {
          assert x in multiset(sorted);
          assert x in multiset(s[1..]);
          var k :| 0 <= k < |s[1..]| && s[1..][k] == x;
          assert s[k + 1] == x;
        }
      }
      InsertByName(s[0], sorted)
  }

  /**
   * Two ascending listings with the same entries are equal, so sorting is
   * determined even though Go's sort.Slice is not stable.
   */
  lemma {:induction false} AscendingPermutationUnique(a: seq<DirEntry>, b: seq<DirEntry>)
    requires Ascending(a) && Ascending(b)
    requires multiset(a) == multiset(b)
    ensures a == b
  {
    if a != [] {
      assert |b| == |multiset(b)| == |multiset(a)| == |a|;
      assert a[0] in multiset(b);
      assert b[0] in multiset(a);
      if a[0] != b[0] {
        var i :| 0 <= i < |b| && b[i] == a[0];
        var j :| 0 <= j < |a| && a[j] == b[0];
        assert Strings.Less(b[0].name, a[0].name);
        assert Strings.Less(a[0].name, b[0].name);
        Strings.LessAsymmetric(a[0].name, b[0].name);
        assert false;
      }
      assert a == [a[0]] + a[1..] && b == [b[0]] + b[1..];
      assert multiset(a) == multiset{a[0]} + multiset(a[1..]);
      assert multiset(b) == multiset{b[0]} + multiset(b[1..]);
      assert multiset(a[1..]) == multiset(a) - multiset{a[0]};
      assert multiset(b[1..]) == multiset(b) - multiset{b[0]};
      AscendingPermutationUnique(a[1..], b[1..]);
    }
  }

  /** entrySet: the names seen so far and the kept entries, in arrival order until listed. */
  class EntrySet {
    var seen: set<string>
    var entries: seq<DirEntry>

    /** The name set is exactly the names of the kept entries, and no name is kept twice. */
    ghost predicate Valid()
      reads this
    {
      seen == Names(entries) && DistinctNames(entries)
    }

    /** newEntrySet */
    constructor ()
      ensures Valid() && seen == {} && entries == []
    {
      seen := {};
      entries := [];
    }

    /** Appends each entry of `des` whose name has not been seen, in order. */
    method Add(des: seq<DirEntry>)
      requires Valid()
      modifies this
      ensures Valid()
      ensures entries == old(entries) + KeepFirst(old(seen), des)
      ensures seen == old(seen) + Names(des)
    {
      ghost var s0, seen0 := entries, seen;
      var k := 0;
      while k < |des|
        invariant 0 <= k <= |des|
        invariant entries == s0 + KeepFirst(seen0, des[..k])
        invariant seen == seen0 + Names(des[..k])
      {
        var de := des[k];
        AddStep(s0, seen0, des, k, entries, seen);
        if de.name !in seen {
          entries := entries + [de];
          seen := seen + {de.name};
        }
        k := k + 1;
      }
      assert des[..k] == des;
      AppendKept(s0, seen0, des);
    }

    /** Sorts the kept entries by name in place and returns them. */
    method List() returns (r: seq<DirEntry>)
      requires Valid()
      modifies this
      ensures Valid() && seen == old(seen)
      ensures Ascending(entries) && multiset(entries) == multiset(old(entries))
      ensures entries == SortByName(old(entries)) && r == entries
    {
      entries := SortByName(entries);
      PermutationNames(entries, old(entries));
      AscendingDistinct(entries);
      r := entries;
    }
  }
}
