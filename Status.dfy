/** The selection logic of the repository status tree
    (cola/widgets/status.py) with the Qt widgets taken away: four ordered
    lists of paths (staged, unmerged, modified, untracked), the rows of
    each that are selected, the category headers that are selected, and
    the categories that have been expanded once. */
module Status {
  import opened Text

  // =====================================================================
  // Categories and per-category records

  /** The tree's top-level items, in tree order (idx_staged = 0 ..
      idx_untracked = 3). */
  datatype Category = Staged | Unmerged | Modified | Untracked

  function CatIndex(c: Category): (k: nat)
    ensures k < 4 && CatAt(k) == c
  {
    match c
    case Staged => 0
    case Unmerged => 1
    case Modified => 2
    case Untracked => 3
  }

  function CatAt(k: nat): Category
    requires k < 4
  {
    if k == 0 then Staged else if k == 1 then Unmerged else if k == 2 then Modified else Untracked
  }

  /** cola.models.selection.State: one value per category. */
  datatype State<T> = State(staged: T, unmerged: T, modified: T, untracked: T) {
    function Get(c: Category): T {
      match c
      case Staged => staged
      case Unmerged => unmerged
      case Modified => modified
      case Untracked => untracked
    }

    function Set(c: Category, v: T): (r: State<T>)
      ensures r.Get(c) == v && forall d :: d != c ==> r.Get(d) == Get(d)
      ensures v == Get(c) ==> r == this
    {
      match c
      case Staged => this.(staged := v)
      case Unmerged => this.(unmerged := v)
      case Modified => this.(modified := v)
      case Untracked => this.(untracked := v)
    }
  }

  lemma SetTwice<T>(s: State<T>, c: Category, v: T, w: T)
    ensures s.Set(c, v).Set(c, w) == s.Set(c, w)
  {
  }

  type Contents = State<seq<string>>
  type Rows = State<set<nat>>

  const NoRows: Rows := State({}, {}, {}, {})

  /** The items whose rows are selected, in tree order (qtutils.tree_selection). */
  function Picked(items: seq<string>, rows: set<nat>): (r: seq<string>)
    ensures |r| <= |items|
    ensures forall x :: x in r ==> x in items
  {
    if |items| == 0 then []
    else Picked(items[..|items| - 1], rows) + (if |items| - 1 in rows then [items[|items| - 1]] else [])
  }

  /** selection(): the selected items of every category. */
  function SelectionOf(c: Contents, rows: Rows): State<seq<string>> {
    State(Picked(c.staged, rows.staged), Picked(c.unmerged, rows.unmerged),
          Picked(c.modified, rows.modified), Picked(c.untracked, rows.untracked))
  }

  lemma SelectionOfGet(c: Contents, rows: Rows, cat: Category)
    ensures SelectionOf(c, rows).Get(cat) == Picked(c.Get(cat), rows.Get(cat))
  {
  }

  /** A single selected row picks exactly that item. */
  lemma {:induction false} PickedOne(items: seq<string>, row: nat)
    requires row < |items|
    ensures Picked(items, {row}) == [items[row]]
  {
    if row < |items| - 1 {
      PickedOne(items[..|items| - 1], row);
    } else {
      PickedNone(items[..|items| - 1], {row});
    }
  }

  lemma {:induction false} PickedNone(items: seq<string>, rows: set<nat>)
    requires forall r :: r in rows ==> r >= |items|
    ensures Picked(items, rows) == []
  {
    if |items| > 0 {
      PickedNone(items[..|items| - 1], rows);
    }
  }

  /** all_files(): every path, in tree order. */
  function AllFiles(c: Contents): seq<string> {
    c.staged + c.unmerged + c.modified + c.untracked
  }

  // =====================================================================
  // Flat indices: selected_idx and select_by_index

  /** Number of items in the categories before the k-th. */
  function Offset(c: Contents, k: nat): nat
    requires k <= 4
  {
    if k == 0 then 0 else Offset(c, k - 1) + |c.Get(CatAt(k - 1))|
  }

  lemma OffsetValues(c: Contents)
    ensures Offset(c, 1) == |c.staged|
    ensures Offset(c, 2) == |c.staged| + |c.unmerged|
    ensures Offset(c, 3) == |c.staged| + |c.unmerged| + |c.modified|
    ensures Offset(c, 4) == |AllFiles(c)|
  {
    assert Offset(c, 1) == |c.staged|;
    assert Offset(c, 2) == Offset(c, 1) + |c.unmerged|;
    assert Offset(c, 3) == Offset(c, 2) + |c.modified|;
    assert Offset(c, 4) == Offset(c, 3) + |c.untracked|;
  }

  /** The flat index of row `row` of category `cat`: the lengths of the
      categories before it plus the row. */
  function FlatIndex(c: Contents, cat: Category, row: nat): nat {
    Offset(c, CatIndex(cat)) + row
  }

  /** The flat index names the same file in all_files(). */
  lemma FlatIndexFile(c: Contents, cat: Category, row: nat)
    requires row < |c.Get(cat)|
    ensures FlatIndex(c, cat, row) < |AllFiles(c)|
    ensures AllFiles(c)[FlatIndex(c, cat, row)] == c.Get(cat)[row]
  {
    var a := AllFiles(c);
    OffsetValues(c);
    match cat
    case Staged =>
    case Unmerged => assert a[|c.staged| + row] == c.unmerged[row];
    case Modified => assert a[|c.staged| + |c.unmerged| + row] == c.modified[row];
    case Untracked => assert a[|c.staged| + |c.unmerged| + |c.modified| + row] == c.untracked[row];
  }

  /** The loop of select_by_index from category `k` on: skip empty
      categories, stop in the category the index falls in, otherwise
      subtract its length. */
  function LocateFrom(c: Contents, k: nat, idx: nat): Option<(Category, nat)>
    requires k <= 4
    decreases 4 - k
  {
    if k == 4 then None
    else
      var n := |c.Get(CatAt(k))|;
      if n == 0 then LocateFrom(c, k + 1, idx)
      else if idx < n then Some((CatAt(k), idx))
      else LocateFrom(c, k + 1, idx - n)
  }

  function Locate(c: Contents, idx: nat): Option<(Category, nat)> {
    LocateFrom(c, 0, idx)
  }

  lemma {:induction false} LocateFromSound(c: Contents, k: nat, idx: nat)
    requires k <= 4
    ensures LocateFrom(c, k, idx).Some? ==>
              var (cat, row) := LocateFrom(c, k, idx).value;
              CatIndex(cat) >= k && row < |c.Get(cat)| && Offset(c, CatIndex(cat)) + row == Offset(c, k) + idx
    ensures LocateFrom(c, k, idx).None? <==> Offset(c, k) + idx >= Offset(c, 4)
    decreases 4 - k
  {
    if k < 4 {
      var n := |c.Get(CatAt(k))|;
      if n == 0 {
        LocateFromSound(c, k + 1, idx);
      } else if idx >= n {
        LocateFromSound(c, k + 1, idx - n);
      } else {
        OffsetMonotone(c, k + 1, 4);
      }
    }
  }

  lemma {:induction false} OffsetMonotone(c: Contents, j: nat, k: nat)
    requires j <= k <= 4
    ensures Offset(c, j) <= Offset(c, k)
    decreases k - j
  {
    if j < k {
      OffsetMonotone(c, j, k - 1);
    }
  }

  /** select_by_index finds the row the flat index names, and finds none
      exactly when the index is past the last file. */
  lemma LocateSound(c: Contents, idx: nat)
    ensures Locate(c, idx).None? <==> idx >= |AllFiles(c)|
    ensures Locate(c, idx).Some? ==>
              var (cat, row) := Locate(c, idx).value;
              row < |c.Get(cat)| && FlatIndex(c, cat, row) == idx && AllFiles(c)[idx] == c.Get(cat)[row]
  {
    LocateFromSound(c, 0, idx);
    OffsetValues(c);
    if Locate(c, idx).Some? {
      var (cat, row) := Locate(c, idx).value;
      FlatIndexFile(c, cat, row);
    }
  }

  lemma {:induction false} LocateFromFlat(c: Contents, k: nat, idx: nat, cat: Category, row: nat)
    requires k <= CatIndex(cat) && row < |c.Get(cat)|
    requires Offset(c, k) + idx == FlatIndex(c, cat, row)
    ensures LocateFrom(c, k, idx) == Some((cat, row))
    decreases 4 - k
  {
    if k < CatIndex(cat) {
      OffsetMonotone(c, k + 1, CatIndex(cat));
      LocateFromFlat(c, k + 1, idx - |c.Get(CatAt(k))|, cat, row);
    }
  }

  /** The flat index of a file leads select_by_index back to that file. */
  lemma LocateFlat(c: Contents, cat: Category, row: nat)
    requires row < |c.Get(cat)|
    ensures Locate(c, FlatIndex(c, cat, row)) == Some((cat, row))
  {
    LocateFromFlat(c, 0, FlatIndex(c, cat, row), cat, row);
  }

  // =====================================================================
  // Selection priority: selected_group and single_selection

  /** The order selected_group scans the categories in. */
  const GroupOrder: seq<Category> := [Staged, Unmerged, Modified, Untracked]
  /** The order single_selection scans the categories in. */
  const SingleOrder: seq<Category> := [Staged, Modified, Unmerged, Untracked]

  /** order[k] is the first category, in `order`, with a selected item. */
  predicate FirstNonEmptyAt(s: State<seq<string>>, order: seq<Category>, k: nat) {
    k < |order| && |s.Get(order[k])| > 0 && forall j :: 0 <= j < k ==> |s.Get(order[j])| == 0
  }

  predicate NoneSelected(s: State<seq<string>>) {
    s.staged == [] && s.unmerged == [] && s.modified == [] && s.untracked == []
  }

  /** selected_group(): the files of the first group with a selection. */
  function SelectedGroup(s: State<seq<string>>): seq<string> {
    if |s.staged| > 0 then s.staged
    else if |s.unmerged| > 0 then s.unmerged
    else if |s.modified| > 0 then s.modified
    else if |s.untracked| > 0 then s.untracked
    else []
  }

  /** selected_group returns the first non-empty group in the order
      staged, unmerged, modified, untracked. */
  lemma SelectedGroupPriority(s: State<seq<string>>, k: nat)
    requires FirstNonEmptyAt(s, GroupOrder, k)
    ensures SelectedGroup(s) == s.Get(GroupOrder[k])
  {
    assert k >= 1 ==> |s.Get(GroupOrder[0])| == 0;
    assert k >= 2 ==> |s.Get(GroupOrder[1])| == 0;
    assert k >= 3 ==> |s.Get(GroupOrder[2])| == 0;
  }

  lemma SelectedGroupEmpty(s: State<seq<string>>)
    ensures SelectedGroup(s) == [] <==> NoneSelected(s)
  {
  }

  /** single_selection(): the first item of the first group with a
      selection, every other category None. */
  function SingleSelection(s: State<seq<string>>): State<Option<string>> {
    if |s.staged| > 0 then State(Some(s.staged[0]), None, None, None)
    else if |s.modified| > 0 then State(None, None, Some(s.modified[0]), None)
    else if |s.unmerged| > 0 then State(None, Some(s.unmerged[0]), None, None)
    else if |s.untracked| > 0 then State(None, None, None, Some(s.untracked[0]))
    else State(None, None, None, None)
  }

  /** single_selection picks the first item of the first non-empty group
      in the order staged, modified, unmerged, untracked, and nothing
      else. */
  lemma SingleSelectionPriority(s: State<seq<string>>, k: nat)
    requires FirstNonEmptyAt(s, SingleOrder, k)
    ensures SingleSelection(s).Get(SingleOrder[k]) == Some(s.Get(SingleOrder[k])[0])
    ensures forall d :: d != SingleOrder[k] ==> SingleSelection(s).Get(d) == None
  {
    assert k >= 1 ==> |s.Get(SingleOrder[0])| == 0;
    assert k >= 2 ==> |s.Get(SingleOrder[1])| == 0;
    assert k >= 3 ==> |s.Get(SingleOrder[2])| == 0;
  }

  lemma SingleSelectionEmpty(s: State<seq<string>>)
    ensures NoneSelected(s) <==> forall d :: SingleSelection(s).Get(d) == None
  {
    if |s.staged| > 0 {
      assert SingleSelection(s).Get(Staged).Some?;
    } else if |s.modified| > 0 {
      assert SingleSelection(s).Get(Modified).Some?;
    } else if |s.unmerged| > 0 {
      assert SingleSelection(s).Get(Unmerged).Some?;
    } else if |s.untracked| > 0 {
      assert SingleSelection(s).Get(Untracked).Some?;
    }
  }

  /** The two priorities disagree: with an unmerged and a modified file
      selected, selected_group picks the unmerged one and
      single_selection the modified one. */
  lemma PrioritiesDiffer(a: string, b: string)
    ensures SelectedGroup(State([], [a], [b], [])) == [a]
    ensures SingleSelection(State([], [a], [b], [])) == State(None, None, Some(b), None)
  {
  }

  // =====================================================================
  // selected_idx

  /** list.index: the position of the first occurrence (|xs| when absent). */
  function IndexOf(xs: seq<string>, x: string): nat {
    if |xs| == 0 || xs[0] == x then 0 else 1 + IndexOf(xs[1..], x)
  }

  lemma {:induction false} IndexOfSpec(xs: seq<string>, x: string)
    requires x in xs
    ensures IndexOf(xs, x) < |xs| && xs[IndexOf(xs, x)] == x
    ensures forall j :: 0 <= j < IndexOf(xs, x) ==> xs[j] != x
  {
    if xs[0] != x {
      IndexOfSpec(xs[1..], x);
    }
  }

  predicate Distinct(xs: seq<string>) {
    forall i, j :: 0 <= i < j < |xs| ==> xs[i] != xs[j]
  }

  lemma IndexOfDistinct(xs: seq<string>, row: nat)
    requires Distinct(xs) && row < |xs|
    ensures IndexOf(xs, xs[row]) == row
  {
    IndexOfSpec(xs, xs[row]);
  }

  /** The loop of selected_idx from category `k` on, with `offset` the
      files counted so far: skip empty categories, return at the first
      category with a selection, otherwise count its files. */
  function SelectedFrom(c: Contents, s: State<Option<string>>, k: nat, offset: nat): Option<nat>
    requires k <= 4
    decreases 4 - k
  {
    if k == 4 then None
    else
      var content := c.Get(CatAt(k));
      if |content| == 0 then SelectedFrom(c, s, k + 1, offset)
      else if s.Get(CatAt(k)).Some? then Some(offset + IndexOf(content, s.Get(CatAt(k)).value))
      else SelectedFrom(c, s, k + 1, offset + |content|)
  }

  /** selected_idx() of a tree showing `c` with `rows` selected. */
  function SelectedIdxOf(c: Contents, rows: Rows): Option<nat> {
    SelectedFrom(c, SingleSelection(SelectionOf(c, rows)), 0, 0)
  }

  lemma {:induction false} SelectedFromAt(c: Contents, s: State<Option<string>>, k: nat, offset: nat, cat: Category)
    requires k <= CatIndex(cat) && offset == Offset(c, k)
    requires s.Get(cat).Some? && s.Get(cat).value in c.Get(cat)
    requires forall d :: d != cat ==> s.Get(d) == None
    ensures SelectedFrom(c, s, k, offset) == Some(FlatIndex(c, cat, IndexOf(c.Get(cat), s.Get(cat).value)))
    decreases 4 - k
  {
    if k < CatIndex(cat) {
      SelectedFromAt(c, s, k + 1, offset + |c.Get(CatAt(k))|, cat);
    }
  }

  lemma {:induction false} SelectedFromNone(c: Contents, s: State<Option<string>>, k: nat, offset: nat)
    requires k <= 4
    requires forall d :: s.Get(d) == None
    ensures SelectedFrom(c, s, k, offset) == None
    decreases 4 - k
  {
    if k < 4 {
      SelectedFromNone(c, s, k + 1, offset + |c.Get(CatAt(k))|);
    }
  }

  /** The rows of a tree where only the row `row` of `cat` is selected. */
  function OnlyRow(cat: Category, row: nat): Rows {
    NoRows.Set(cat, {row})
  }

  lemma SelectionOfOnlyRow(c: Contents, cat: Category, row: nat)
    requires row < |c.Get(cat)|
    ensures SelectionOf(c, OnlyRow(cat, row)).Get(cat) == [c.Get(cat)[row]]
    ensures forall d :: d != cat ==> SelectionOf(c, OnlyRow(cat, row)).Get(d) == []
  {
    PickedOne(c.Get(cat), row);
    forall d | d != cat
      ensures SelectionOf(c, OnlyRow(cat, row)).Get(d) == []
    {
      SelectionOfGet(c, OnlyRow(cat, row), d);
      PickedNone(c.Get(d), {});
    }
    SelectionOfGet(c, OnlyRow(cat, row), cat);
  }

  /** The position of `cat` in the order single_selection scans. */
  function SingleRank(cat: Category): (k: nat)
    ensures k < 4 && SingleOrder[k] == cat
  {
    match cat
    case Staged => 0
    case Modified => 1
    case Unmerged => 2
    case Untracked => 3
  }

  /** The category single_selection takes its item from. */
  function SingleCategory(s: State<seq<string>>): Category
    requires !NoneSelected(s)
  {
    if |s.staged| > 0 then Staged
    else if |s.modified| > 0 then Modified
    else if |s.unmerged| > 0 then Unmerged
    else Untracked
  }

  lemma SingleCategoryFirst(s: State<seq<string>>)
    requires !NoneSelected(s)
    ensures FirstNonEmptyAt(s, SingleOrder, SingleRank(SingleCategory(s)))
  {
  }

  /** selected_idx finds no index exactly when no file is selected; when it
      finds one, select_by_index of it selects the file single_selection
      picked. */
  lemma SelectedIdxLocates(c: Contents, rows: Rows)
    ensures SelectedIdxOf(c, rows).None? <==> NoneSelected(SelectionOf(c, rows))
    ensures SelectedIdxOf(c, rows).Some? ==>
              Locate(c, SelectedIdxOf(c, rows).value).Some? &&
              var (cat, row) := Locate(c, SelectedIdxOf(c, rows).value).value;
              SingleSelection(SelectionOf(c, rows)).Get(cat) == Some(c.Get(cat)[row])
  {
    var s := SelectionOf(c, rows);
    var ss := SingleSelection(s);
    SingleSelectionEmpty(s);
    if NoneSelected(s) {
      SelectedFromNone(c, ss, 0, 0);
    } else {
      var cat := SingleCategory(s);
      SingleCategoryFirst(s);
      SingleSelectionPriority(s, SingleRank(cat));
      SelectionOfGet(c, rows, cat);
      var x := s.Get(cat)[0];
      assert x in c.Get(cat);
      SelectedFromAt(c, ss, 0, 0, cat);
      IndexOfSpec(c.Get(cat), x);
      LocateFlat(c, cat, IndexOf(c.Get(cat), x));
    }
  }

  /** Conversely, when every category lists each path once, selecting the
      file at a flat index makes selected_idx return that index. */
  lemma SelectByIndexRoundTrip(c: Contents, i: nat)
    requires i < |AllFiles(c)|
    requires forall d :: Distinct(c.Get(d))
    ensures Locate(c, i).Some?
    ensures SelectedIdxOf(c, OnlyRow(Locate(c, i).value.0, Locate(c, i).value.1)) == Some(i)
  {
    LocateSound(c, i);
    var (cat, row) := Locate(c, i).value;
    var s := SelectionOf(c, OnlyRow(cat, row));
    SelectionOfOnlyRow(c, cat, row);
    assert FirstNonEmptyAt(s, SingleOrder, SingleRank(cat));
    SingleSelectionPriority(s, SingleRank(cat));
    SelectedFromAt(c, SingleSelection(s), 0, 0, cat);
    IndexOfDistinct(c.Get(cat), row);
  }

  // =====================================================================
  // restore_selection

  function Reversed(xs: seq<string>): (r: seq<string>)
    ensures |r| == |xs|
  {
    if |xs| == 0 then [] else [xs[|xs| - 1]] + Reversed(xs[..|xs| - 1])
  }

  lemma {:induction false} ReversedMembers(xs: seq<string>, x: string)
    ensures x in Reversed(xs) <==> x in xs
  {
    if |xs| > 0 {
      ReversedMembers(xs[..|xs| - 1], x);
      assert xs == xs[..|xs| - 1] + [xs[|xs| - 1]];
    }
  }

  /** The first of `xs` that is still in `after`. */
  function FirstIn(xs: seq<string>, after: seq<string>): (r: Option<string>)
    ensures r.Some? ==> r.value in xs && r.value in after
  {
    if |xs| == 0 then None
    else if xs[0] in after then Some(xs[0])
    else FirstIn(xs[1..], after)
  }

  /** The last of `xs` that is still in `after`. */
  function LastIn(xs: seq<string>, after: seq<string>): Option<string> {
    if |xs| == 0 then None
    else if xs[|xs| - 1] in after then Some(xs[|xs| - 1])
    else LastIn(xs[..|xs| - 1], after)
  }

  lemma {:induction false} FirstInNone(xs: seq<string>, after: seq<string>)
    ensures FirstIn(xs, after).None? <==> forall x :: x in xs ==> x !in after
  {
    if |xs| > 0 {
      FirstInNone(xs[1..], after);
      assert xs == [xs[0]] + xs[1..];
    }
  }

  lemma {:induction false} FirstInAppend(a: seq<string>, b: seq<string>, after: seq<string>)
    ensures FirstIn(a + b, after) == if FirstIn(a, after).Some? then FirstIn(a, after) else FirstIn(b, after)
  {
    if |a| > 0 {
      assert (a + b)[1..] == a[1..] + b;
      FirstInAppend(a[1..], b, after);
    } else {
      assert a + b == b;
    }
  }

  lemma {:induction false} FirstInReversed(xs: seq<string>, after: seq<string>)
    ensures FirstIn(Reversed(xs), after) == LastIn(xs, after)
  {
    if |xs| > 0 {
      var r := Reversed(xs);
      assert r[1..] == Reversed(xs[..|xs| - 1]);
      FirstInReversed(xs[..|xs| - 1], after);
    }
  }

  /** The items tried when before[idx] is gone: those after it, then those
      before it from the nearest back. */
  function Candidates(before: seq<string>, idx: nat): seq<string>
    requires idx < |before|
  {
    before[idx + 1..] + Reversed(before[..idx])
  }

  /** The candidate chosen is the first survivor after the removed item
      or, when none is left after it, the nearest survivor before it. */
  lemma CandidatesOrder(before: seq<string>, idx: nat, after: seq<string>)
    requires idx < |before|
    ensures FirstIn(Candidates(before, idx), after) ==
              if FirstIn(before[idx + 1..], after).Some? then FirstIn(before[idx + 1..], after) else LastIn(before[..idx], after)
  {
    FirstInAppend(before[idx + 1..], Reversed(before[..idx]), after);
    FirstInReversed(before[..idx], after);
  }

  lemma CandidatesMembers(before: seq<string>, idx: nat, p: nat)
    requires idx < |before| && p < |before| && p != idx
    ensures before[p] in Candidates(before, idx)
  {
    if p < idx {
      ReversedMembers(before[..idx], before[p]);
      assert before[p] == before[..idx][p];
    } else {
      assert before[p] == before[idx + 1..][p - idx - 1];
    }
  }

  /** The inner loops of restore_selection for one category, from old
      position `idx` on: at each item that is gone, try its candidates; an
      item none of whose candidates survive passes the search on to the
      next gone item. */
  function JumpScan(before: seq<string>, after: seq<string>, idx: nat): Option<string>
    decreases |before| - idx
  {
    if idx >= |before| then None
    else if before[idx] !in after && FirstIn(Candidates(before, idx), after).Some? then FirstIn(Candidates(before, idx), after)
    else JumpScan(before, after, idx + 1)
  }

  /** The item a category jumps to: searched only when it shrank. */
  function JumpTarget(before: seq<string>, after: seq<string>): Option<string> {
    if |after| < |before| && |before| > 0 then JumpScan(before, after, 0) else None
  }

  lemma {:induction false} JumpScanSurvivor(before: seq<string>, after: seq<string>, idx: nat)
    ensures JumpScan(before, after, idx).Some? ==> JumpScan(before, after, idx).value in before && JumpScan(before, after, idx).value in after
    decreases |before| - idx
  {
    if idx < |before| {
      if before[idx] !in after && FirstIn(Candidates(before, idx), after).Some? {
        var j := FirstIn(Candidates(before, idx), after).value;
        ReversedMembers(before[..idx], j);
        assert j in before[idx + 1..] || j in before[..idx];
      } else {
        JumpScanSurvivor(before, after, idx + 1);
      }
    }
  }

  /** The item jumped to is an old item that survived. */
  lemma JumpTargetSurvivor(before: seq<string>, after: seq<string>)
    ensures JumpTarget(before, after).Some? ==> JumpTarget(before, after).value in before && JumpTarget(before, after).value in after
  {
    JumpScanSurvivor(before, after, 0);
  }

  lemma {:induction false} JumpScanSkip(before: seq<string>, after: seq<string>, idx: nat, i0: nat)
    requires idx <= i0 <= |before|
    requires forall p :: idx <= p < i0 ==> before[p] in after
    ensures JumpScan(before, after, idx) == JumpScan(before, after, i0)
    decreases i0 - idx
  {
    if idx < i0 {
      JumpScanSkip(before, after, idx + 1, i0);
    }
  }

  lemma {:induction false} JumpScanNoSurvivors(before: seq<string>, after: seq<string>, idx: nat)
    requires forall p :: 0 <= p < |before| ==> before[p] !in after
    ensures JumpScan(before, after, idx) == None
    decreases |before| - idx
  {
    if idx < |before| {
      assert forall x :: x in Candidates(before, idx) ==> x !in after by {
        forall x | x in Candidates(before, idx)
          ensures x !in after
        {
          ReversedMembers(before[..idx], x);
        }
      }
      FirstInNone(Candidates(before, idx), after);
      JumpScanNoSurvivors(before, after, idx + 1);
    }
  }

  /** When a category shrank, the jump is decided by the FIRST item that
      is gone: its first candidate that survived, and no jump at all when
      none of its candidates survived. */
  lemma JumpTargetFirstRemoved(before: seq<string>, after: seq<string>, i0: nat)
    requires |after| < |before|
    requires i0 < |before| && before[i0] !in after
    requires forall p :: 0 <= p < i0 ==> before[p] in after
    ensures JumpTarget(before, after) == FirstIn(Candidates(before, i0), after)
  {
    JumpScanSkip(before, after, 0, i0);
    if FirstIn(Candidates(before, i0), after).None? {
      FirstInNone(Candidates(before, i0), after);
      forall p | 0 <= p < |before|
        ensures before[p] !in after
      {
        if p != i0 {
          CandidatesMembers(before, i0, p);
        }
      }
      JumpScanNoSurvivors(before, after, i0 + 1);
    }
  }

  /** The order restore_selection visits the categories in. */
  const RestoreOrder: seq<Category> := [Modified, Unmerged, Untracked, Staged]

  /** What restore_selection does. */
  datatype Restore =
    | NoRestore                                  // nothing was saved
    | JumpTo(cat: Category, item: string)        // select this one item
    | Reselect(sel: State<seq<string>>)          // reselect the saved items that survived

  function PlanFrom(newC: Contents, oldC: Contents, oldS: State<seq<string>>, k: nat): Restore
    requires k <= 4
    decreases 4 - k
  {
    if k == 4 then Reselect(oldS)
    else
      var cat := RestoreOrder[k];
      var j := JumpTarget(oldC.Get(cat), newC.Get(cat));
      if j.Some? then JumpTo(cat, j.value) else PlanFrom(newC, oldC, oldS, k + 1)
  }

  function RestorePlan(newC: Contents, oldC: Option<Contents>, oldS: Option<State<seq<string>>>): Restore {
    if oldS.None? || oldC.None? then NoRestore else PlanFrom(newC, oldC.value, oldS.value, 0)
  }

  lemma {:induction false} PlanFromReselect(newC: Contents, oldC: Contents, oldS: State<seq<string>>, k: nat)
    requires k <= 4
    ensures PlanFrom(newC, oldC, oldS, k).Reselect? <==>
              forall i :: k <= i < 4 ==> JumpTarget(oldC.Get(RestoreOrder[i]), newC.Get(RestoreOrder[i])).None?
    ensures PlanFrom(newC, oldC, oldS, k).Reselect? ==> PlanFrom(newC, oldC, oldS, k).sel == oldS
    ensures PlanFrom(newC, oldC, oldS, k).JumpTo? ==>
              var p := PlanFrom(newC, oldC, oldS, k);
              JumpTarget(oldC.Get(p.cat), newC.Get(p.cat)) == Some(p.item)
    decreases 4 - k
  {
    if k < 4 {
      PlanFromReselect(newC, oldC, oldS, k + 1);
    }
  }

  /** The saved items are reselected exactly when no category finds an
      item to jump to; a jump goes to a saved-contents item of its category
      that is still there. */
  lemma RestorePlanSpec(newC: Contents, oldC: Contents, oldS: State<seq<string>>)
    ensures RestorePlan(newC, Some(oldC), Some(oldS)).Reselect? <==>
              forall d :: JumpTarget(oldC.Get(d), newC.Get(d)).None?
    ensures RestorePlan(newC, Some(oldC), Some(oldS)).JumpTo? ==>
              var p := RestorePlan(newC, Some(oldC), Some(oldS));
              p.item in oldC.Get(p.cat) && p.item in newC.Get(p.cat)
  {
    PlanFromReselect(newC, oldC, oldS, 0);
    var p := RestorePlan(newC, Some(oldC), Some(oldS));
    if p.JumpTo? {
      JumpTargetSurvivor(oldC.Get(p.cat), newC.Get(p.cat));
    }
    assert RestoreOrder[0] == Modified && RestoreOrder[1] == Unmerged;
    assert RestoreOrder[2] == Untracked && RestoreOrder[3] == Staged;
  }

  /** If no category shrank, the saved selection is reselected. */
  lemma NoShrinkReselects(newC: Contents, oldC: Contents, oldS: State<seq<string>>)
    requires forall d :: |newC.Get(d)| >= |oldC.Get(d)|
    ensures RestorePlan(newC, Some(oldC), Some(oldS)) == Reselect(oldS)
  {
    PlanFromReselect(newC, oldC, oldS, 0);
  }

  /** The rows of `after` holding the items of `sel` that are still there. */
  function ReselectRows(after: seq<string>, sel: seq<string>): set<nat> {
    if |sel| == 0 then {}
    else ReselectRows(after, sel[..|sel| - 1]) +
         (if sel[|sel| - 1] in after then {IndexOf(after, sel[|sel| - 1])} else {})
  }

  lemma {:induction false} ReselectRowsSpec(after: seq<string>, sel: seq<string>, r: nat)
    ensures r in ReselectRows(after, sel) <==> exists x :: x in sel && x in after && r == IndexOf(after, x)
  {
    if |sel| > 0 {
      var init := sel[..|sel| - 1];
      ReselectRowsSpec(after, init, r);
      assert sel == init + [sel[|sel| - 1]];
    }
  }

  /** The rows after restore_selection has carried out `plan` on `rows`. */
  function Restored(newC: Contents, rows: Rows, plan: Restore): Rows {
    match plan
    case NoRestore => rows
    case JumpTo(cat, j) => rows.Set(cat, rows.Get(cat) + {IndexOf(newC.Get(cat), j)})
    case Reselect(sel) =>
      State(rows.staged + ReselectRows(newC.staged, sel.staged),
            rows.unmerged + ReselectRows(newC.unmerged, sel.unmerged),
            rows.modified + ReselectRows(newC.modified, sel.modified),
            rows.untracked + ReselectRows(newC.untracked, sel.untracked))
  }

  lemma {:induction false} PickedMembers(items: seq<string>, rows: set<nat>, x: string)
    ensures x in Picked(items, rows) <==> exists i :: 0 <= i < |items| && i in rows && items[i] == x
  {
    if |items| > 0 {
      var init := items[..|items| - 1];
      PickedMembers(init, rows, x);
      if exists i :: 0 <= i < |items| && i in rows && items[i] == x {
        var i :| 0 <= i < |items| && i in rows && items[i] == x;
        if i < |init| {
          assert init[i] == x;
        }
      }
    }
  }

  /** After a jump, restore_selection leaves exactly the jumped-to item
      selected (the rows were cleared when the tree was refilled). */
  lemma RestoredJump(newC: Contents, cat: Category, j: string)
    requires j in newC.Get(cat)
    ensures SelectionOf(newC, Restored(newC, NoRows, JumpTo(cat, j))).Get(cat) == [j]
    ensures forall d :: d != cat ==> SelectionOf(newC, Restored(newC, NoRows, JumpTo(cat, j))).Get(d) == []
  {
    var row := IndexOf(newC.Get(cat), j);
    IndexOfSpec(newC.Get(cat), j);
    assert NoRows.Get(cat) + {row} == {row};
    SelectionOfOnlyRow(newC, cat, row);
  }

  /** After a reselect, the selected items of each category are exactly the
      saved selected items that are still listed. */
  lemma RestoredReselect(newC: Contents, sel: State<seq<string>>, d: Category, x: string)
    ensures x in SelectionOf(newC, Restored(newC, NoRows, Reselect(sel))).Get(d) <==>
              x in sel.Get(d) && x in newC.Get(d)
  {
    var after := newC.Get(d);
    var rr := ReselectRows(after, sel.Get(d));
    assert Restored(newC, NoRows, Reselect(sel)).Get(d) == rr;
    SelectionOfGet(newC, Restored(newC, NoRows, Reselect(sel)), d);
    PickedMembers(after, rr, x);
    if x in sel.Get(d) && x in after {
      IndexOfSpec(after, x);
      ReselectRowsSpec(after, sel.Get(d), IndexOf(after, x));
    }
    if exists i :: 0 <= i < |after| && i in rr && after[i] == x {
      var i :| 0 <= i < |after| && i in rr && after[i] == x;
      ReselectRowsSpec(after, sel.Get(d), i);
      var y :| y in sel.Get(d) && y in after && i == IndexOf(after, y);
      IndexOfSpec(after, y);
    }
  }

  // =====================================================================
  // Requests the tree broadcasts

  /** signals.stage and signals.unstage with their paths. */
  datatype Request = StageRequest(paths: seq<string>) | UnstageRequest(paths: seq<string>)

  /** _process_selection: unstage the staged selection, stage the rest. */
  function SelectionRequests(s: State<seq<string>>): seq<Request> {
    var unstaged := s.unmerged + s.modified + s.untracked;
    (if |s.staged| > 0 then [UnstageRequest(s.staged)] else []) +
    (if |unstaged| > 0 then [StageRequest(unstaged)] else [])
  }

  /** Unstaging is asked for exactly when staged files are selected, staging
      exactly when other files are, with the unmerged, modified and
      untracked selections in that order; unstaging comes first and no
      request is empty. */
  lemma SelectionRequestsSpec(s: State<seq<string>>)
    ensures UnstageRequest(s.staged) in SelectionRequests(s) <==> |s.staged| > 0
    ensures StageRequest(s.unmerged + s.modified + s.untracked) in SelectionRequests(s) <==>
              |s.unmerged| + |s.modified| + |s.untracked| > 0
    ensures forall r :: r in SelectionRequests(s) ==> |r.paths| > 0
    ensures |SelectionRequests(s)| == 2 ==> SelectionRequests(s)[0].UnstageRequest?
  {
  }

  /** What _revert_unstaged_edits does. */
  datatype RevertOutcome =
    | NotUndoable                  // the model says nothing can be undone
    | NothingToRevert(log: string) // logged with status 1
    | RevertDeclined               // the confirmation was refused
    | Checkout(argv: seq<string>)  // signals.checkout

  const NoFilesToRevert := "No files selected for checkout from HEAD."

  /** _revert_unstaged_edits(staged): check out the staged selection (or
      the modified selection) from the index, or from HEAD's parent commit
      `head` when amending and reverting worktree edits. */
  function RevertUnstagedEdits(undoable: bool, staged: bool, sel: State<seq<string>>,
                               amending: bool, head: string, confirmed: bool): (r: RevertOutcome)
    ensures !undoable <==> r == NotUndoable
    ensures r.NothingToRevert? <==> undoable && (if staged then sel.staged else sel.modified) == []
    ensures r.NothingToRevert? ==> r.log == NoFilesToRevert
    ensures r.Checkout? <==> undoable && confirmed && (if staged then sel.staged else sel.modified) != []
    ensures r.Checkout? ==>
              var items := if staged then sel.staged else sel.modified;
              var pre := |r.argv| - |items|;
              pre >= 1 && r.argv[pre..] == items && r.argv[pre - 1] == "--" &&
              (pre == 2 <==> !staged && amending) && (pre == 2 ==> r.argv[0] == head) && pre <= 2
  {
    if !undoable then NotUndoable
    else
      var items := if staged then sel.staged else sel.modified;
      if items == [] then NothingToRevert(NoFilesToRevert)
      else if !confirmed then RevertDeclined
      else
        var args := if !staged && amending then [head] else [];
        Checkout(args + ["--"] + items)
  }

  /** A confirmation dialog's texts. */
  datatype Confirmation = Confirmation(title: string, message: string, info: string, ok: string)

  /** What _delete_files asks and then requests. */
  datatype DeleteOutcome = DeleteOutcome(prompt: Option<Confirmation>, delete: Option<seq<string>>)

  const MaxFileInfo: nat := 2048

  /** The quoted file list of the delete confirmation, cut to 2048
      characters, right-stripped and marked with "..." when longer. */
  function FileInfo(files: seq<string>): string {
    var info := List2Cmdline(files);
    if |info| > MaxFileInfo then RStrip(info[..MaxFileInfo]) + "..." else info
  }

  /** A short list is shown whole; a long one shows its first 2048
      characters with the trailing white space removed, followed by
      "...". */
  lemma FileInfoSpec(files: seq<string>)
    ensures |List2Cmdline(files)| <= MaxFileInfo ==> FileInfo(files) == List2Cmdline(files)
    ensures |List2Cmdline(files)| > MaxFileInfo ==>
              var r := FileInfo(files);
              var shown := r[..|r| - 3];
              r == shown + "..." && |shown| <= MaxFileInfo && StartsWith(List2Cmdline(files), shown) &&
              (|shown| == 0 || !IsSpace(shown[|shown| - 1])) &&
              forall k :: |shown| <= k < MaxFileInfo ==> IsSpace(List2Cmdline(files)[k])
  {
    var info := List2Cmdline(files);
    if |info| > MaxFileInfo {
      RStripSpec(info[..MaxFileInfo]);
      var cut := info[..MaxFileInfo];
      var shown := RStrip(cut);
      assert FileInfo(files) == shown + "...";
      assert FileInfo(files)[..|FileInfo(files)| - 3] == shown;
      forall k | |shown| <= k < MaxFileInfo
        ensures IsSpace(info[k])
      {
        assert cut[k] == info[k];
      }
    }
  }

  const DeletePrefix := "The following files will be deleted:\n\n"

  /** _delete_files on the untracked selection `files`. */
  function DeleteFiles(files: seq<string>, confirmed: bool): (r: DeleteOutcome)
    ensures r.prompt.None? <==> files == []
    ensures r.prompt.Some? ==> r.prompt.value.message == DeletePrefix + FileInfo(files)
    ensures r.prompt.Some? ==> r.prompt.value.info == "Delete " + NatToString(|files|) + " file(s)?"
    ensures r.delete.Some? <==> files != [] && confirmed
    ensures r.delete.Some? ==> r.delete.value == files
  {
    if |files| == 0 then DeleteOutcome(None, None)
    else
      var prompt := Confirmation("Delete Files?", DeletePrefix + FileInfo(files),
                                 "Delete " + NatToString(|files|) + " file(s)?", "Delete Files");
      DeleteOutcome(Some(prompt), if confirmed then Some(files) else None)
  }

  // =====================================================================
  // Navigation

  /** A tree item: a category header or a file row. */
  datatype TreeItem = HeaderItem(cat: Category) | FileItem(cat: Category, row: nat)

  function ItemRows(item: TreeItem): Rows {
    match item
    case HeaderItem(_) => NoRows
    case FileItem(cat, row) => OnlyRow(cat, row)
  }

  function ItemHeaders(item: TreeItem): set<Category> {
    match item
    case HeaderItem(cat) => {cat}
    case FileItem(_, _) => {}
  }

  /** The file row select_by_index(i) selects, if any. */
  function ItemAt(c: Contents, i: nat): Option<TreeItem> {
    match Locate(c, i)
    case Some((cat, row)) => Some(FileItem(cat, row))
    case None => None
  }

  /** The item move_up selects. `headerSelected` says the selection starts
      with a header, `above` is the item Qt shows above that header. */
  function MoveUpTarget(c: Contents, rows: Rows, headerSelected: bool, above: Option<TreeItem>): Option<TreeItem> {
    var n := |AllFiles(c)|;
    match SelectedIdxOf(c, rows)
    case None =>
      if headerSelected && above.Some? then above
      else if n > 0 then ItemAt(c, n - 1)
      else None
    case Some(i) => if i >= 1 then ItemAt(c, i - 1) else if n > 0 then ItemAt(c, n - 1) else None
  }

  /** The item move_down selects, with `below` the item below the header. */
  function MoveDownTarget(c: Contents, rows: Rows, headerSelected: bool, below: Option<TreeItem>): Option<TreeItem> {
    var n := |AllFiles(c)|;
    match SelectedIdxOf(c, rows)
    case None =>
      if headerSelected && below.Some? then below
      else if n > 0 then ItemAt(c, 0)
      else None
    case Some(i) => if i + 1 < n then ItemAt(c, i + 1) else ItemAt(c, 0)
  }

  lemma SelectedIdxBound(c: Contents, rows: Rows)
    ensures SelectedIdxOf(c, rows).Some? ==> SelectedIdxOf(c, rows).value < |AllFiles(c)|
  {
    SelectedIdxLocates(c, rows);
    if SelectedIdxOf(c, rows).Some? {
      LocateSound(c, SelectedIdxOf(c, rows).value);
    }
  }

  /** With a file selected, move_down selects the next file, and the first
      one after the last. */
  lemma MoveDownNext(c: Contents, rows: Rows, headerSelected: bool, below: Option<TreeItem>, i: nat)
    requires forall d :: Distinct(c.Get(d))
    requires SelectedIdxOf(c, rows) == Some(i)
    ensures i < |AllFiles(c)|
    ensures MoveDownTarget(c, rows, headerSelected, below).Some?
    ensures SelectedIdxOf(c, ItemRows(MoveDownTarget(c, rows, headerSelected, below).value)) ==
              Some(if i + 1 < |AllFiles(c)| then i + 1 else 0)
  {
    SelectedIdxBound(c, rows);
    var next := if i + 1 < |AllFiles(c)| then i + 1 else 0;
    SelectByIndexRoundTrip(c, next);
  }

  /** With a file selected, move_up selects the previous file, and the last
      one before the first. */
  lemma MoveUpPrevious(c: Contents, rows: Rows, headerSelected: bool, above: Option<TreeItem>, i: nat)
    requires forall d :: Distinct(c.Get(d))
    requires SelectedIdxOf(c, rows) == Some(i)
    ensures i < |AllFiles(c)|
    ensures MoveUpTarget(c, rows, headerSelected, above).Some?
    ensures SelectedIdxOf(c, ItemRows(MoveUpTarget(c, rows, headerSelected, above).value)) ==
              Some(if i >= 1 then i - 1 else |AllFiles(c)| - 1)
  {
    SelectedIdxBound(c, rows);
    var prev := if i >= 1 then i - 1 else |AllFiles(c)| - 1;
    SelectByIndexRoundTrip(c, prev);
  }

  // =====================================================================
  // The tree

  /** The first of `cands` still in `after`: the innermost loop of
      restore_selection. */
  method FirstSurvivor(cands: seq<string>, after: seq<string>) returns (r: Option<string>)
    ensures r == FirstIn(cands, after)
  {
    var afterSet := set x | x in after;
    for i := 0 to |cands|
      invariant FirstIn(cands[i..], after) == FirstIn(cands, after)
    {
      assert cands[i..][1..] == cands[i + 1..];
      if cands[i] in afterSet {
        return Some(cands[i]);
      }
    }
    return None;
  }

  /** The middle loop of restore_selection for one category. */
  method FindJump(before: seq<string>, after: seq<string>) returns (r: Option<string>)
    ensures r == JumpTarget(before, after)
  {
    if !(|after| < |before| && |before| > 0) {
      return None;
    }
    var afterSet := set x | x in after;
    for idx := 0 to |before|
      invariant JumpScan(before, after, idx) == JumpTarget(before, after)
    {
      if before[idx] !in afterSet {
        var j := FirstSurvivor(Candidates(before, idx), after);
        if j.Some? {
          return j;
        }
      }
    }
    return None;
  }

  /** Everything the tree widget holds, as a value. */
  datatype Tree = Tree(
    contents: Contents,                       // the model's four lists, as displayed
    rows: Rows,                               // the selected file rows of each category
    headers: set<Category>,                   // the selected category headers
    expanded: set<Category>,                  // expanded_items
    oldSelection: Option<State<seq<string>>>, // saved by _about_to_update
    oldContents: Option<Contents>)
  {
    /** The tree after the method select_item(item) when there is an item. */
    function Selecting(item: Option<TreeItem>): Tree {
      if item.Some? then this.(rows := ItemRows(item.value), headers := ItemHeaders(item.value)) else this
    }
  }

  /** The categories with at least one item. */
  function NonEmptyCategories(m: Contents): set<Category> {
    (if m.staged != [] then {Staged} else {}) + (if m.unmerged != [] then {Unmerged} else {}) +
    (if m.modified != [] then {Modified} else {}) + (if m.untracked != [] then {Untracked} else {})
  }

  /** StatusTreeWidget: what the tree shows and what is selected in it. */
  class StatusTreeWidget {
    var contents: Contents
    var rows: Rows
    var headers: set<Category>
    var expanded: set<Category>
    var oldSelection: Option<State<seq<string>>>
    var oldContents: Option<Contents>

    constructor ()
      ensures Value() == Tree(State([], [], [], []), NoRows, {}, {}, None, None)
    {
      contents := State([], [], [], []);
      rows := NoRows;
      headers := {};
      expanded := {};
      oldSelection := None;
      oldContents := None;
    }

    function Value(): Tree
      reads this
    {
      Tree(contents, rows, headers, expanded, oldSelection, oldContents)
    }

    /** selection() */
    function Selection(): State<seq<string>>
      reads this
    {
      SelectionOf(contents, rows)
    }

    /** The method select_item: `item` becomes the current item and the
        only selected one. */
    method SelectItem(item: TreeItem)
      modifies this
      ensures Value() == old(Value()).Selecting(Some(item))
    {
      rows := ItemRows(item);
      headers := ItemHeaders(item);
    }

    /** The module-level select_item: add a row to the selection. */
    method AddRow(cat: Category, row: nat)
      modifies this
      ensures Value() == old(Value()).(rows := old(rows).Set(cat, old(rows).Get(cat) + {row}))
    {
      rows := rows.Set(cat, rows.Get(cat) + {row});
    }

    /** selected_idx() */
    method SelectedIdx() returns (r: Option<nat>)
      ensures r == SelectedIdxOf(contents, rows)
    {
      var c := contents;
      var s := SingleSelection(SelectionOf(c, rows));
      var offset: nat := 0;
      for k := 0 to 4
        invariant SelectedFrom(c, s, k, offset) == SelectedIdxOf(c, rows)
      {
        var content := c.Get(CatAt(k));
        if |content| == 0 {
          continue;
        }
        var selection := s.Get(CatAt(k));
        if selection.Some? {
          return Some(offset + IndexOf(content, selection.value));
        }
        offset := offset + |content|;
      }
      return None;
    }

    /** select_by_index(idx) */
    method SelectByIndex(idx: nat)
      modifies this
      ensures Value() == old(Value()).Selecting(ItemAt(old(contents), idx))
    {
      var c := contents;
      var i: nat := idx;
      for k := 0 to 4
        invariant LocateFrom(c, k, i) == Locate(c, idx)
        invariant unchanged(this)
      {
        var content := c.Get(CatAt(k));
        if |content| == 0 {
          continue;
        }
        if i < |content| {
          SelectItem(FileItem(CatAt(k), i));
          return;
        }
        i := i - |content|;
      }
    }

    /** move_up(), with `above` the item Qt shows above the first selected
        header (None when there is none). */
    method MoveUp(above: Option<TreeItem>)
      modifies this
      ensures Value() == old(Value()).Selecting(MoveUpTarget(old(contents), old(rows), old(headers) != {}, above))
    {
      var idx := SelectedIdx();
      var n := |AllFiles(contents)|;
      ghost var target := MoveUpTarget(contents, rows, headers != {}, above);
      if idx.None? {
        if headers != {} && above.Some? {
          SelectItem(above.value);
          return;
        }
        if n > 0 {
          SelectByIndex(n - 1);
        }
        return;
      }
      if idx.value - 1 >= 0 {
        assert target == ItemAt(contents, idx.value - 1);
        SelectByIndex(idx.value - 1);
      } else {
        SelectedIdxBound(contents, rows);
        assert target == ItemAt(contents, n - 1);
        SelectByIndex(n - 1);
      }
    }

    /** move_down(), with `below` the item Qt shows below the first
        selected header (None when there is none). */
    method MoveDown(below: Option<TreeItem>)
      modifies this
      ensures Value() == old(Value()).Selecting(MoveDownTarget(old(contents), old(rows), old(headers) != {}, below))
    {
      var idx := SelectedIdx();
      var n := |AllFiles(contents)|;
      if idx.None? {
        if headers != {} && below.Some? {
          SelectItem(below.value);
          return;
        }
        if n > 0 {
          SelectByIndex(0);
        }
        return;
      }
      if idx.value + 1 < n {
        SelectByIndex(idx.value + 1);
      } else {
        SelectByIndex(0);
      }
    }

    /** expand_items(idx, items): expand a category the first time it has
        items; `expandedNow` says whether expandItem was called. */
    method ExpandItems(cat: Category, items: seq<string>) returns (expandedNow: bool)
      modifies this
      ensures Value() == old(Value()).(expanded := if items == [] then old(expanded) else old(expanded) + {cat})
      ensures expandedNow <==> items != [] && cat !in old(expanded)
    {
      if items == [] {
        return false;
      }
      if cat in expanded {
        return false;
      }
      expanded := expanded + {cat};
      return true;
    }

    /** _about_to_update(): remember the selection and the contents. */
    method AboutToUpdate()
      modifies this
      ensures Value() == old(Value()).(oldSelection := Some(old(Selection())), oldContents := Some(old(contents)))
    {
      oldSelection := Some(Selection());
      oldContents := Some(contents);
    }

    /** The reselect loop of restore_selection for one category. */
    method ReselectCategory(cat: Category, after: seq<string>, sel: seq<string>)
      modifies this
      ensures Value() == old(Value()).(rows := old(rows).Set(cat, old(rows).Get(cat) + ReselectRows(after, sel)))
    {
      var afterSet := set x | x in after;
      assert old(rows).Get(cat) + ReselectRows(after, sel[..0]) == rows.Get(cat);
      for i := 0 to |sel|
        invariant Value() == old(Value()).(rows := old(rows).Set(cat, old(rows).Get(cat) + ReselectRows(after, sel[..i])))
      {
        assert sel[..i + 1][..i] == sel[..i];
        assert ReselectRows(after, sel[..i + 1]) ==
               ReselectRows(after, sel[..i]) + (if sel[i] in after then {IndexOf(after, sel[i])} else {});
        if sel[i] in afterSet {
          var row := IndexOf(after, sel[i]);
          var a := old(rows).Get(cat) + ReselectRows(after, sel[..i]);
          assert old(rows).Get(cat) + ReselectRows(after, sel[..i + 1]) == a + {row};
          SetTwice(old(rows), cat, a, a + {row});
          AddRow(cat, row);
        } else {
          assert ReselectRows(after, sel[..i + 1]) == ReselectRows(after, sel[..i]);
        }
      }
      assert sel[..|sel|] == sel;
    }

    /** The second pass of restore_selection. */
    method ReselectAll(newC: Contents, sel: State<seq<string>>)
      modifies this
      ensures Value() == old(Value()).(rows := Restored(newC, old(rows), Reselect(sel)))
    {
      ReselectCategory(Modified, newC.modified, sel.modified);
      ReselectCategory(Unmerged, newC.unmerged, sel.unmerged);
      ReselectCategory(Untracked, newC.untracked, sel.untracked);
      ReselectCategory(Staged, newC.staged, sel.staged);
    }

    /** restore_selection() */
    method RestoreSelection()
      modifies this
      ensures Value() == old(Value()).(rows := Restored(old(contents), old(rows), RestorePlan(old(contents), old(oldContents), old(oldSelection))))
    {
      if oldSelection.None? || oldContents.None? {
        return;
      }
      var oldC := oldContents.value;
      var oldS := oldSelection.value;
      var newC := contents;
      for k := 0 to 4
        invariant PlanFrom(newC, oldC, oldS, k) == PlanFrom(newC, oldC, oldS, 0)
        invariant unchanged(this)
      {
        var cat := RestoreOrder[k];
        var j := FindJump(oldC.Get(cat), newC.Get(cat));
        if j.Some? {
          AddRow(cat, IndexOf(newC.Get(cat), j.value));
          return;
        }
      }
      ReselectAll(newC, oldS);
    }

    /** _updated(): show the model's lists (refilling a category drops
        its selected rows), expand categories that gained items, then
        restore the selection. */
    method Updated(m: Contents)
      modifies this
      ensures Value() == old(Value()).(contents := m, expanded := old(expanded) + NonEmptyCategories(m),
                                       rows := Restored(m, NoRows, RestorePlan(m, old(oldContents), old(oldSelection))))
    {
      contents := m;
      rows := NoRows;
      var _ := ExpandItems(Staged, m.staged);
      var _ := ExpandItems(Modified, m.modified);
      var _ := ExpandItems(Unmerged, m.unmerged);
      var _ := ExpandItems(Untracked, m.untracked);
      RestoreSelection();
    }

    /** _process_selection(): the requests a double click broadcasts. */
    method ProcessSelection() returns (reqs: seq<Request>)
      ensures reqs == SelectionRequests(Selection())
    {
      var s := Selection();
      reqs := [];
      if s.staged != [] {
        reqs := reqs + [UnstageRequest(s.staged)];
      }
      var unstaged := [];
      if s.unmerged != [] {
        unstaged := unstaged + s.unmerged;
      }
      if s.modified != [] {
        unstaged := unstaged + s.modified;
      }
      if s.untracked != [] {
        unstaged := unstaged + s.untracked;
      }
      assert unstaged == s.unmerged + s.modified + s.untracked;
      if unstaged != [] {
        reqs := reqs + [StageRequest(unstaged)];
      }
    }
  }
}
