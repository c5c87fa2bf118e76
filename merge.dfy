/** Order-preserving, duplicate-free merge of several lists (merge_unique). */
module Merge {

  /** No element occurs twice in s. */
  predicate NoDuplicates<T(==)>(s: seq<T>) {
    forall i, j :: 0 <= i < j < |s| ==> s[i] != s[j]
  }

  /** One pass of the inner loop: appends to acc, left to right, every element
      of xs that is not already present. */
  function AddNew<T(==)>(acc: seq<T>, xs: seq<T>): seq<T>
    decreases |xs|
  {
    if xs == [] then acc
    else
      var prev := AddNew(acc, xs[..|xs| - 1]);
      var x := xs[|xs| - 1];
      if x in prev then prev else prev + [x]
  }

  /** Keeps the first occurrence of every element of s. */
  function Dedup<T(==)>(s: seq<T>): seq<T> {
    AddNew([], s)
  }

  /** The concatenation of the lists, in order. */
  function Flatten<T>(lists: seq<seq<T>>): seq<T>
    decreases |lists|
  {
    if lists == [] then [] else Flatten(lists[..|lists| - 1]) + lists[|lists| - 1]
  }

  /** The sum of the lengths of the lists. */
  function TotalLength<T>(lists: seq<seq<T>>): nat
    decreases |lists|
  {
    if lists == [] then 0 else TotalLength(lists[..|lists| - 1]) + |lists[|lists| - 1]|
  }

  /** What merge_unique returns for the given lists. */
  function Merged<T(==)>(lists: seq<seq<T>>): seq<T> {
    Dedup(Flatten(lists))
  }

  /** The elements of ys that do not occur in seen, in their order in ys. */
  function Without<T(==)>(ys: seq<T>, seen: seq<T>): seq<T>
    decreases |ys|
  {
    if ys == [] then []
    else
      var y := ys[|ys| - 1];
      Without(ys[..|ys| - 1], seen) + (if y in seen then [] else [y])
  }

  /** The position of the first occurrence of x in s. */
  function FirstIndex<T(==)>(s: seq<T>, x: T): (k: nat)
    requires x in s
    ensures k < |s| && s[k] == x && x !in s[..k]
    decreases |s|
  {
    if s[0] == x then 0
    else
      var k := 1 + FirstIndex(s[1..], x);
      assert s[..k] == [s[0]] + s[1..][..k - 1];
      k
  }

  /** merge_unique: `seen` and `merged` grow in two nested loops; an item is
      appended only when it has not been seen before. */
  method MergeUnique<T(==)>(lists: seq<seq<T>>) returns (merged: seq<T>)
    ensures merged == Merged(lists)
    ensures NoDuplicates(merged)
    ensures forall i, x :: 0 <= i < |lists| && x in lists[i] ==> x in merged
    ensures forall x :: x in merged ==> exists i :: 0 <= i < |lists| && x in lists[i]
  {
    var seen: set<T> := {};
    merged := [];
    for i := 0 to |lists|
      invariant merged == Merged(lists[..i])
      invariant forall x :: x in seen <==> x in merged
    {
      var items := lists[i];
      ghost var before := merged;
      for j := 0 to |items|
        invariant merged == AddNew(before, items[..j])
        invariant forall x :: x in seen <==> x in merged
      {
        var item := items[j];
        assert items[..j + 1][..j] == items[..j];
        if item !in seen {
          seen := seen + {item};
          merged := merged + [item];
        }
      }
      assert items[..|items|] == items;
      assert lists[..i + 1][..i] == lists[..i];
      AddNewAppend([], Flatten(lists[..i]), items);
    }
    assert lists[..|lists|] == lists;
    MergedNoDuplicates(lists);
    MergedMembers(lists);
  }

  /** Processing xs and then ys is processing xs + ys. */
  lemma {:induction false} AddNewAppend<T>(acc: seq<T>, xs: seq<T>, ys: seq<T>)
    ensures AddNew(acc, xs + ys) == AddNew(AddNew(acc, xs), ys)
    decreases |ys|
  {
    if ys == [] {
      assert xs + ys == xs;
    } else {
      var ys' := ys[..|ys| - 1];
      assert (xs + ys)[..|xs + ys| - 1] == xs + ys';
      assert (xs + ys)[|xs + ys| - 1] == ys[|ys| - 1];
      AddNewAppend(acc, xs, ys');
    }
  }

  /** An element is in the result exactly when it was in acc or in xs. */
  lemma {:induction false} AddNewMembers<T>(acc: seq<T>, xs: seq<T>)
    ensures forall x :: x in AddNew(acc, xs) <==> x in acc || x in xs
    decreases |xs|
  {
    if xs != [] {
      var xs' := xs[..|xs| - 1];
      AddNewMembers(acc, xs');
      assert xs == xs' + [xs[|xs| - 1]];
    }
  }

  /** The same, for one element. */
  lemma AddNewMember<T>(acc: seq<T>, xs: seq<T>, x: T)
    ensures x in AddNew(acc, xs) <==> x in acc || x in xs
  {
  }

  /** The result starts with acc and grows by at most |xs|. */
  lemma {:induction false} AddNewExtends<T>(acc: seq<T>, xs: seq<T>)
    ensures |acc| <= |AddNew(acc, xs)| <= |acc| + |xs|
    ensures AddNew(acc, xs)[..|acc|] == acc
    decreases |xs|
  {
    if xs != [] {
      AddNewExtends(acc, xs[..|xs| - 1]);
    }
  }

  /** No element is appended twice, and none that acc already holds. */
  lemma {:induction false} AddNewNoDuplicates<T>(acc: seq<T>, xs: seq<T>)
    requires NoDuplicates(acc)
    ensures NoDuplicates(AddNew(acc, xs))
    decreases |xs|
  {
    if xs != [] {
      AddNewNoDuplicates(acc, xs[..|xs| - 1]);
    }
  }

  /** Elements that are all new and pairwise distinct are appended as they are. */
  lemma {:induction false} AddNewFresh<T>(acc: seq<T>, xs: seq<T>)
    requires NoDuplicates(xs)
    requires forall x :: x in xs ==> x !in acc
    ensures AddNew(acc, xs) == acc + xs
    decreases |xs|
  {
    if xs != [] {
      var xs' := xs[..|xs| - 1];
      var x := xs[|xs| - 1];
      AddNewFresh(acc, xs');
      forall i | 0 <= i < |xs'|
        ensures xs'[i] != x
      {
        assert xs'[i] == xs[i];
      }
      assert xs == xs' + [x];
    }
  }

  /** A later list only contributes its elements that are not seen yet, once
      each, in the order in which they first occur in that list. */
  lemma {:induction false} AddNewIsWithout<T>(acc: seq<T>, ys: seq<T>)
    ensures AddNew(acc, ys) == acc + Dedup(Without(ys, acc))
    decreases |ys|
  {
    if ys != [] {
      var ys' := ys[..|ys| - 1];
      var y := ys[|ys| - 1];
      AddNewIsWithout(acc, ys');
      var d := Dedup(Without(ys', acc));
      if y !in acc {
        var w := Without(ys', acc) + [y];
        assert Without(ys, acc) == w;
        assert w[..|w| - 1] == Without(ys', acc);
        assert y in acc + d <==> y in d;
        if y !in d {
          assert acc + d + [y] == acc + (d + [y]);
        }
      } else {
        assert Without(ys, acc) == Without(ys', acc) + [];
        assert Without(ys', acc) + [] == Without(ys', acc);
      }
    }
  }

  /** Without keeps only elements of ys that are not in seen. */
  lemma {:induction false} WithoutMembers<T>(ys: seq<T>, seen: seq<T>)
    ensures forall x :: x in Without(ys, seen) <==> x in ys && x !in seen
    decreases |ys|
  {
    if ys != [] {
      var ys' := ys[..|ys| - 1];
      WithoutMembers(ys', seen);
      assert ys == ys' + [ys[|ys| - 1]];
    }
  }

  /** x occurs in the flattening exactly when it occurs in one of the lists. */
  lemma {:induction false} FlattenMember<T>(lists: seq<seq<T>>, x: T)
    ensures x in Flatten(lists) <==> exists i :: 0 <= i < |lists| && x in lists[i]
    decreases |lists|
  {
    if lists != [] {
      var init, last := lists[..|lists| - 1], lists[|lists| - 1];
      FlattenMember(init, x);
      assert Flatten(lists) == Flatten(init) + last;
      if x in Flatten(init) {
        var i :| 0 <= i < |init| && x in init[i];
        assert lists[i] == init[i];
      } else if x !in last {
        forall i | 0 <= i < |lists|
          ensures x !in lists[i]
        {
          if i < |init| {
            assert lists[i] == init[i];
          }
        }
      }
    }
  }

  /** Flattening the list of lists with one more list in front. */
  lemma {:induction false} FlattenCons<T>(lists: seq<seq<T>>)
    requires lists != []
    ensures Flatten(lists) == lists[0] + Flatten(lists[1..])
    decreases |lists|
  {
    if |lists| > 1 {
      var init := lists[..|lists| - 1];
      FlattenCons(init);
      assert init[1..] == lists[1..][..|lists[1..]| - 1];
    } else {
      assert lists == [lists[0]];
    }
  }

  /** Flattening with one more list at the end. */
  lemma FlattenSnoc<T>(lists: seq<seq<T>>, ys: seq<T>)
    ensures Flatten(lists + [ys]) == Flatten(lists) + ys
  {
  }

  /** The flattening is exactly as long as all the lists together. */
  lemma {:induction false} FlattenLength<T>(lists: seq<seq<T>>)
    ensures |Flatten(lists)| == TotalLength(lists)
    decreases |lists|
  {
    if lists != [] {
      FlattenLength(lists[..|lists| - 1]);
    }
  }

  /** A merged list holds no element twice. */
  lemma MergedNoDuplicates<T>(lists: seq<seq<T>>)
    ensures NoDuplicates(Merged(lists))
  {
    AddNewNoDuplicates([], Flatten(lists));
  }

  /** The merged list covers every element of every input list and contains
      nothing outside their union. */
  lemma MergedMembers<T>(lists: seq<seq<T>>)
    ensures forall x :: x in Merged(lists) <==> exists i :: 0 <= i < |lists| && x in lists[i]
  {
    AddNewMembers([], Flatten(lists));
    forall x {
      FlattenMember(lists, x);
    }
  }

  /** The merged list is never longer than all inputs together. */
  lemma MergedLength<T>(lists: seq<seq<T>>)
    ensures |Merged(lists)| <= TotalLength(lists)
  {
    AddNewExtends([], Flatten(lists));
    FlattenLength(lists);
  }

  /** When the first list has no duplicates, the merge starts with exactly it. */
  lemma MergedStartsWithFirst<T>(lists: seq<seq<T>>)
    requires lists != [] && NoDuplicates(lists[0])
    ensures |lists[0]| <= |Merged(lists)|
    ensures Merged(lists)[..|lists[0]|] == lists[0]
  {
    FlattenCons(lists);
    AddNewAppend([], lists[0], Flatten(lists[1..]));
    AddNewFresh([], lists[0]);
    assert [] + lists[0] == lists[0];
    AddNewExtends(lists[0], Flatten(lists[1..]));
  }

  /** A further list only appends the elements not merged yet, in the order
      in which they first occur in it. */
  lemma MergedAppendList<T>(lists: seq<seq<T>>, ys: seq<T>)
    ensures Merged(lists + [ys]) == Merged(lists) + Dedup(Without(ys, Merged(lists)))
    ensures forall x :: x in Without(ys, Merged(lists)) <==> x in ys && x !in Merged(lists)
  {
    FlattenSnoc(lists, ys);
    AddNewAppend([], Flatten(lists), ys);
    AddNewIsWithout(Merged(lists), ys);
    WithoutMembers(ys, Merged(lists));
  }

  /** Re-merging a merged list gives it back unchanged. */
  lemma MergedIdempotent<T>(lists: seq<seq<T>>)
    ensures Merged([Merged(lists)]) == Merged(lists)
  {
    var m := Merged(lists);
    assert [m][..0] == [];
    assert Flatten([m]) == m;
    MergedNoDuplicates(lists);
    AddNewFresh([], m);
  }

  /** Adding an element at the end does not move earlier first occurrences. */
  lemma FirstIndexSnoc<T>(s: seq<T>, y: T, x: T)
    requires x in s
    ensures FirstIndex(s + [y], x) == FirstIndex(s, x)
  {
    var k := FirstIndex(s, x);
    assert (s + [y])[..k] == s[..k];
    FirstIndexUnique(s + [y], x, k);
  }

  /** The first occurrence is the only position holding x with no x before it. */
  lemma FirstIndexUnique<T>(s: seq<T>, x: T, k: nat)
    requires k < |s| && s[k] == x && x !in s[..k]
    ensures FirstIndex(s, x) == k
  {
  }

  /** Dedup orders its elements by where they first occur in the input. */
  lemma {:induction false} DedupFirstOccurrenceOrder<T>(s: seq<T>)
    ensures forall i, j :: 0 <= i < j < |Dedup(s)| ==>
      Dedup(s)[i] in s && Dedup(s)[j] in s &&
      FirstIndex(s, Dedup(s)[i]) < FirstIndex(s, Dedup(s)[j])
    decreases |s|
  {
    if s != [] {
      var p := s[..|s| - 1];
      var x := s[|s| - 1];
      assert s == p + [x];
      DedupFirstOccurrenceOrder(p);
      var r', r := Dedup(p), Dedup(s);
      assert r == if x in r' then r' else r' + [x];
      forall i | 0 <= i < |r'|
        ensures r[i] == r'[i] && r'[i] in p
      {
        AddNewMember([], p, r'[i]);
      }
      forall i, j | 0 <= i < j < |r|
        ensures r[i] in s && r[j] in s && FirstIndex(s, r[i]) < FirstIndex(s, r[j])
      {
        FirstIndexSnoc(p, x, r[i]);
        if j < |r'| {
          FirstIndexSnoc(p, x, r[j]);
        } else {
          AddNewMember([], p, x);
          FirstIndexUnique(s, x, |p|);
        }
      }
    } else {
      assert Dedup(s) == [];
    }
  }

  /** merge_unique keeps first-occurrence order across all the lists. */
  lemma MergedFirstOccurrenceOrder<T>(lists: seq<seq<T>>)
    ensures forall i, j :: 0 <= i < j < |Merged(lists)| ==>
      Merged(lists)[i] in Flatten(lists) && Merged(lists)[j] in Flatten(lists) &&
      FirstIndex(Flatten(lists), Merged(lists)[i]) < FirstIndex(Flatten(lists), Merged(lists)[j])
  {
    DedupFirstOccurrenceOrder(Flatten(lists));
  }
}
