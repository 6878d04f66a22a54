/**
 * The paging rule of `QueryByRequest`: rows arrive in groups, the first `skip`
 * rows overall are passed over, at most `take` rows are kept, and a group with
 * no kept row is not reported.
 */
module Paging {
  /** A group of rows under a common head. */
  datatype Group<H, R> = Group(head: H, rows: seq<R>)

  /** All rows of all groups, in order. */
  function Flatten<H, R>(gs: seq<Group<H, R>>): seq<R>
  {
    if gs == [] then [] else Flatten(gs[..|gs| - 1]) + gs[|gs| - 1].rows
  }

  /** `x` forced into `0..hi`. */
  function Clip(x: int, hi: nat): (r: nat)
    ensures r <= hi
    ensures 0 <= x <= hi ==> r == x
    ensures x < 0 ==> r == 0
    ensures hi < x ==> r == hi
  {
    if x < 0 then 0 else if hi < x then hi else x
  }

  /** Rows `skip + 1 .. skip + take` of `rows`, as far as they exist. */
  function Window<R>(rows: seq<R>, skip: nat, take: nat): (r: seq<R>)
    ensures |r| == Clip(skip + take, |rows|) - Clip(skip, |rows|)
    ensures forall i :: 0 <= i < |r| ==> r[i] == rows[skip + i]
  {
    rows[Clip(skip, |rows|)..Clip(skip + take, |rows|)]
  }

  /** The rows of a group that fall in the window, when `before` rows came ahead of it. */
  function Kept<R>(rows: seq<R>, before: nat, skip: nat, take: nat): seq<R>
  {
    rows[Clip(skip - before, |rows|)..Clip(skip + take - before, |rows|)]
  }

  /** The groups reported for a page: the kept part of every group that keeps a row. */
  function Page<H, R>(gs: seq<Group<H, R>>, skip: nat, take: nat): seq<Group<H, R>>
  {
    if gs == [] then []
    else
      var last := gs[|gs| - 1];
      var kept := Kept(last.rows, |Flatten(gs[..|gs| - 1])|, skip, take);
      Page(gs[..|gs| - 1], skip, take) + (if kept == [] then [] else [Group(last.head, kept)])
  }

  lemma FlattenSnoc<H, R>(gs: seq<Group<H, R>>, g: Group<H, R>)
    ensures Flatten(gs + [g]) == Flatten(gs) + g.rows
  {
    assert (gs + [g])[..|gs|] == gs;
  }

  lemma PrefixSnoc<T>(s: seq<T>, i: nat)
    requires i < |s|
    ensures s[..i + 1] == s[..i] + [s[i]]
  {
  }

  /** Appending a group appends its kept part, if it keeps any row. */
  lemma PageSnoc<H, R>(gs: seq<Group<H, R>>, g: Group<H, R>, skip: nat, take: nat)
    ensures var kept := Kept(g.rows, |Flatten(gs)|, skip, take);
      Page(gs + [g], skip, take) == Page(gs, skip, take) + (if kept == [] then [] else [Group(g.head, kept)])
  {
    assert (gs + [g])[..|gs|] == gs;
  }

  /** The rows of a group kept once its first `j` rows have been walked. */
  function KeptSoFar<R>(rows: seq<R>, before: nat, skip: nat, take: nat, j: nat): seq<R>
    requires j <= |rows|
  {
    rows[Clip(skip - before, j)..Clip(skip + take - before, j)]
  }

  /** Walking a row that is still skipped keeps nothing. */
  lemma KeptSoFarSkip<R>(rows: seq<R>, before: nat, skip: nat, take: nat, j: nat)
    requires j < |rows| && before + j + 1 <= skip
    ensures KeptSoFar(rows, before, skip, take, j + 1) == KeptSoFar(rows, before, skip, take, j) == []
  {
  }

  /** Walking a row inside the window keeps it. */
  lemma KeptSoFarKeep<R>(rows: seq<R>, before: nat, skip: nat, take: nat, j: nat)
    requires j < |rows| && skip < before + j + 1 <= skip + take
    ensures KeptSoFar(rows, before, skip, take, j + 1) == KeptSoFar(rows, before, skip, take, j) + [rows[j]]
  {
    var lo := Clip(skip - before, j);
    assert Clip(skip - before, j + 1) == lo;
    assert Clip(skip + take - before, j + 1) == j + 1 && Clip(skip + take - before, j) == j;
    assert rows[lo..j + 1] == rows[lo..j] + [rows[j]];
  }

  /** Once the group is walked, or the window is full, the kept rows are final. */
  lemma KeptSoFarDone<R>(rows: seq<R>, before: nat, skip: nat, take: nat, j: nat)
    requires j <= |rows| && (j == |rows| || before + j >= skip + take)
    ensures KeptSoFar(rows, before, skip, take, j) == Kept(rows, before, skip, take)
  {
  }

  /** Taking more groups never yields fewer rows. */
  lemma {:induction false} FlattenPrefixGrows<H, R>(gs: seq<Group<H, R>>, n: nat)
    requires n <= |gs|
    ensures |Flatten(gs[..n])| <= |Flatten(gs)|
    decreases |gs|
  {
    if n < |gs| {
      var init := gs[..|gs| - 1];
      assert init[..n] == gs[..n];
      FlattenPrefixGrows(init, n);
    } else {
      assert gs[..n] == gs;
    }
  }

  /** Windowing rows that follow `front` picks out `Kept` of them. */
  lemma WindowSnoc<R>(front: seq<R>, rows: seq<R>, skip: nat, take: nat)
    ensures Window(front + rows, skip, take) == Window(front, skip, take) + Kept(rows, |front|, skip, take)
  {
    var all := front + rows;
    var w := Window(all, skip, take);
    var v := Window(front, skip, take) + Kept(rows, |front|, skip, take);
    assert |w| == |v|;
    forall i | 0 <= i < |w| ensures w[i] == v[i] {
      if i < |Window(front, skip, take)| {
        assert w[i] == all[skip + i] == front[skip + i];
      } else {
        var lo := Clip(skip - |front|, |rows|);
        assert v[i] == rows[lo + i - |Window(front, skip, take)|];
      }
    }
  }

  /** The rows reported are exactly the window of all rows. */
  lemma {:induction false} PageIsWindow<H, R>(gs: seq<Group<H, R>>, skip: nat, take: nat)
    ensures Flatten(Page(gs, skip, take)) == Window(Flatten(gs), skip, take)
    decreases |gs|
  {
    if gs != [] {
      var init := gs[..|gs| - 1];
      var last := gs[|gs| - 1];
      var kept := Kept(last.rows, |Flatten(init)|, skip, take);
      PageIsWindow(init, skip, take);
      WindowSnoc(Flatten(init), last.rows, skip, take);
      if kept != [] {
        FlattenSnoc(Page(init, skip, take), Group(last.head, kept));
      } else {
        assert Page(gs, skip, take) == Page(init, skip, take);
      }
    }
  }

  /** At most `take` rows are reported, and fewer only when the rows run out. */
  lemma PageSize<H, R>(gs: seq<Group<H, R>>, skip: nat, take: nat)
    ensures |Flatten(Page(gs, skip, take))| <= take
    ensures |Flatten(gs)| >= skip + take ==> |Flatten(Page(gs, skip, take))| == take
    ensures |Flatten(gs)| <= skip ==> Page(gs, skip, take) == []
  {
    PageIsWindow(gs, skip, take);
    if |Flatten(gs)| <= skip {
      PageOfNothing(gs, skip, take);
    }
  }

  /** No rows in the window means no groups reported. */
  lemma {:induction false} PageOfNothing<H, R>(gs: seq<Group<H, R>>, skip: nat, take: nat)
    requires |Flatten(gs)| <= skip
    ensures Page(gs, skip, take) == []
    decreases |gs|
  {
    if gs != [] {
      var init := gs[..|gs| - 1];
      FlattenPrefixGrows(gs, |gs| - 1);
      PageOfNothing(init, skip, take);
    }
  }

  /** Every reported group keeps at least one row. */
  lemma {:induction false} PageHasNoEmptyGroup<H, R>(gs: seq<Group<H, R>>, skip: nat, take: nat)
    ensures forall k :: 0 <= k < |Page(gs, skip, take)| ==> Page(gs, skip, take)[k].rows != []
    decreases |gs|
  {
    if gs != [] {
      PageHasNoEmptyGroup(gs[..|gs| - 1], skip, take);
    }
  }

  /**
   * Every reported group is a contiguous part of one input group, under that
   * group's head; `j` names the input group.
   */
  lemma {:induction false} PageGroupOrigin<H, R>(gs: seq<Group<H, R>>, skip: nat, take: nat, k: nat) returns (j: nat, lo: nat, hi: nat)
    requires k < |Page(gs, skip, take)|
    ensures j < |gs| && lo <= hi <= |gs[j].rows|
    ensures Page(gs, skip, take)[k] == Group(gs[j].head, gs[j].rows[lo..hi])
    decreases |gs|
  {
    var init := gs[..|gs| - 1];
    var last := gs[|gs| - 1];
    var before := |Flatten(init)|;
    if k < |Page(init, skip, take)| {
      j, lo, hi := PageGroupOrigin(init, skip, take, k);
    } else {
      j, lo, hi := |gs| - 1, Clip(skip - before, |last.rows|), Clip(skip + take - before, |last.rows|);
    }
  }

  /** Once the rows before group `n` reach past the window, later groups add nothing. */
  lemma {:induction false} PageStable<H, R>(gs: seq<Group<H, R>>, n: nat, skip: nat, take: nat)
    requires n <= |gs|
    requires |Flatten(gs[..n])| >= skip + take
    ensures Page(gs, skip, take) == Page(gs[..n], skip, take)
    decreases |gs|
  {
    if n < |gs| {
      var init := gs[..|gs| - 1];
      assert init[..n] == gs[..n];
      FlattenPrefixGrows(init, n);
      PageStable(init, n, skip, take);
    } else {
      assert gs[..n] == gs;
    }
  }

  /**
   * Groups of 1, 3 and 2 rows with skip 2 and take 2: the first row of the
   * first group and of the second are skipped, the second group's next two rows
   * are kept, and nothing of the third group is reported.
   */
  lemma PageExample()
    ensures Page([Group(1, [11]), Group(2, [20, 21, 22]), Group(3, [30, 31])], 2, 2) == [Group(2, [21, 22])]
  {
    var gs := [Group(1, [11]), Group(2, [20, 21, 22]), Group(3, [30, 31])];
    assert gs[..2][..1] == gs[..1];
    assert gs[..1][..0] == [];
    assert Flatten(gs[..1]) == [11];
    assert Flatten(gs[..2]) == [11, 20, 21, 22];
    assert Page(gs[..1], 2, 2) == [];
    assert gs[..2][|gs[..2]| - 1] == Group(2, [20, 21, 22]);
    assert Kept([20, 21, 22], 1, 2, 2) == [21, 22];
    assert Page(gs[..2], 2, 2) == [Group(2, [21, 22])];
  }
}
