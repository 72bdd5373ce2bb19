/**
 * The discipline filter shared, line for line, by the formulas page and the terms page: the
 * selection and the include-children flag read from and written back to the page URL, the
 * toggles, the parents expanded for selected children, the parent/child split, and the query
 * sent to the API.
 *
 * The selection is a JavaScript Set, which remembers insertion order; that order decides the
 * order of the ids in the URL, so it is a duplicate-free sequence here. The expanded parents
 * are only ever asked `has`, so they are a plain set.
 */
module DisciplineFilter {
  import opened Wrappers
  import opened JsStrings
  import opened Seqs
  import opened UrlParams

  /** The fields of a discipline the filter logic reads; name, handle and counts are display only. */
  datatype Discipline = Discipline(id: int, parentId: Option<int>)

  predicate NoDup(xs: seq<int>) {
    forall i, j :: 0 <= i < j < |xs| ==> xs[i] != xs[j]
  }

  /**
   * `new Set(xs)` in insertion order: the first occurrence of each value is kept, and the values
   * stay in the order of their first occurrences.
   */
  function Dedup(xs: seq<int>): (r: seq<int>)
    ensures NoDup(r)
    ensures forall x :: x in r <==> x in xs
    ensures IsSubsequence(r, xs)
    ensures forall i, j :: 0 <= i < j < |r| ==> FirstIndex(xs, r[i]) < FirstIndex(xs, r[j])
  {
    if xs == [] then []
    else
      var init := xs[..|xs| - 1];
      var last := xs[|xs| - 1];
      var d := Dedup(init);
      var r := if last in d then d else d + [last];
      assert xs == init + [last];
      DedupExtend(init, last, d, r);
      r
  }

  /** Adding one value at the end of the list keeps a first-occurrence list one. */
  lemma DedupExtend(init: seq<int>, last: int, d: seq<int>, r: seq<int>)
    requires NoDup(d) && (forall x :: x in d <==> x in init) && IsSubsequence(d, init)
    requires forall i, j :: 0 <= i < j < |d| ==> FirstIndex(init, d[i]) < FirstIndex(init, d[j])
    requires r == if last in d then d else d + [last]
    ensures NoDup(r) && (forall x :: x in r <==> x in init + [last]) && IsSubsequence(r, init + [last])
    ensures forall i, j :: 0 <= i < j < |r| ==> FirstIndex(init + [last], r[i]) < FirstIndex(init + [last], r[j])
  {
    SubsequenceAppend(d, init, last, last !in d);
    assert r == d + (if last !in d then [last] else []);
    DedupExtendOrder(init, last, d, r);
  }

  /** The first-occurrence order survives adding one value at the end. */
  lemma DedupExtendOrder(init: seq<int>, last: int, d: seq<int>, r: seq<int>)
    requires forall x :: x in d <==> x in init
    requires forall i, j :: 0 <= i < j < |d| ==> FirstIndex(init, d[i]) < FirstIndex(init, d[j])
    requires r == if last in d then d else d + [last]
    ensures forall x :: x in r ==> x in init + [last]
    ensures forall i, j :: 0 <= i < j < |r| ==> FirstIndex(init + [last], r[i]) < FirstIndex(init + [last], r[j])
  {
    var xs := init + [last];
    assert xs[..|init|] == init;
    forall i, j | 0 <= i < j < |r|
      ensures FirstIndex(xs, r[i]) < FirstIndex(xs, r[j])
    {
      assert r[i] == d[i] && r[i] in init;
      FirstIndexPrefix(xs, |init|, r[i]);
      if j < |d| {
        assert r[j] == d[j] && r[j] in init;
        FirstIndexPrefix(xs, |init|, r[j]);
      } else {
        assert r[j] == last && last !in init;
        FirstIndexUnique(xs, last, |init|);
      }
    }
  }

  lemma {:induction false} DedupOfDistinct(xs: seq<int>)
    requires NoDup(xs)
    ensures Dedup(xs) == xs
  {
    if xs != [] {
      var init := xs[..|xs| - 1];
      assert NoDup(init);
      DedupOfDistinct(init);
      assert xs[|xs| - 1] !in init;
      assert xs == init + [xs[|xs| - 1]];
    }
  }

  /** `pieces.map(p => parseInt(p, 10)).filter(n => !isNaN(n))`. */
  function ParsedNumbers(pieces: seq<string>): seq<int> {
    if pieces == [] then []
    else
      match ParseInt(pieces[0])
      case Some(n) => [n] + ParsedNumbers(pieces[1..])
      case None => ParsedNumbers(pieces[1..])
  }

  /** Some piece of the list parses to `x`. */
  predicate ParsesTo(pieces: seq<string>, x: int) {
    exists i :: 0 <= i < |pieces| && ParseInt(pieces[i]) == Some(x)
  }

  /** The numbers kept are exactly those some piece parses to. */
  lemma {:induction false} ParsedNumbersMembers(pieces: seq<string>, x: int)
    ensures x in ParsedNumbers(pieces) <==> ParsesTo(pieces, x)
  {
    if pieces != [] {
      ParsedNumbersMembers(pieces[1..], x);
      if ParsesTo(pieces, x) {
        var i :| 0 <= i < |pieces| && ParseInt(pieces[i]) == Some(x);
        if i > 0 {
          assert ParseInt(pieces[1..][i - 1]) == Some(x);
        }
      }
      if ParsesTo(pieces[1..], x) {
        var i :| 0 <= i < |pieces[1..]| && ParseInt(pieces[1..][i]) == Some(x);
        assert ParseInt(pieces[i + 1]) == Some(x);
      }
    }
  }

  /** The ids of a comma-separated list, pieces that do not parse dropped. */
  function ParseIds(list: string): seq<int> {
    ParsedNumbers(Split(list, ','))
  }

  /** getInitialDisciplines: the set parsed from the 'disciplines' parameter, empty when it is absent or empty. */
  function InitialDisciplines(params: Params): (r: seq<int>)
    ensures NoDup(r)
    ensures !Truthy(Get(params, "disciplines")) ==> r == []
    ensures Truthy(Get(params, "disciplines")) ==>
      forall x :: x in r <==> ParsesTo(Split(Get(params, "disciplines").value, ','), x)
  {
    var v := Get(params, "disciplines");
    if Truthy(v) then
      var pieces := Split(v.value, ',');
      forall x ensures x in ParsedNumbers(pieces) <==> ParsesTo(pieces, x) {
        ParsedNumbersMembers(pieces, x);
      }
      Dedup(ParseIds(v.value))
    else []
  }

  /** getInitialIncludeChildren: on unless the parameter is exactly 'false'. */
  function InitialIncludeChildren(params: Params): (r: bool)
    ensures !r <==> HasName(params, "include_children") && Get(params, "include_children").value == "false"
  {
    Get(params, "include_children") != Some("false")
  }

  /** `Array.from(selection).join(',')`. */
  function IdList(sel: seq<int>): string {
    Join(IdStrings(sel), ",")
  }

  function IdStrings(sel: seq<int>): seq<string> {
    seq(|sel|, i requires 0 <= i < |sel| => IntToString(sel[i]))
  }

  /** The parameters the URL writer sets: 'disciplines' for a non-empty selection, 'include_children=false' when off. */
  function WrittenParams(sel: seq<int>, includeChildren: bool): Params {
    var withIds := if |sel| > 0 then SetParam([], "disciplines", IdList(sel)) else [];
    if !includeChildren then SetParam(withIds, "include_children", "false") else withIds
  }

  /** The URL the writer targets for a page path such as '/formulas' or '/terms'. */
  function PageUrl(path: string, sel: seq<int>, includeChildren: bool): (r: string)
    ensures |sel| == 0 && includeChildren ==> r == path
    ensures |sel| > 0 || !includeChildren ==> r == path + "?" + Serialize(WrittenParams(sel, includeChildren))
  {
    WithQuery(path, WrittenParams(sel, includeChildren))
  }

  lemma {:induction false} ParsedNumbersOfWritten(sel: seq<int>)
    ensures ParsedNumbers(IdStrings(sel)) == sel
  {
    if sel != [] {
      var pieces := IdStrings(sel);
      ParseIntToString(sel[0]);
      IdStringsTail(sel);
      ParsedNumbersOfWritten(sel[1..]);
      ParsedNumbersCons(pieces, sel[0]);
      assert sel == [sel[0]] + sel[1..];
    }
  }

  lemma IdStringsTail(sel: seq<int>)
    requires sel != []
    ensures IdStrings(sel)[0] == IntToString(sel[0])
    ensures IdStrings(sel)[1..] == IdStrings(sel[1..])
  {
  }

  lemma ParsedNumbersCons(pieces: seq<string>, n: int)
    requires pieces != [] && ParseInt(pieces[0]) == Some(n)
    ensures ParsedNumbers(pieces) == [n] + ParsedNumbers(pieces[1..])
  {
  }

  /** Reading back what the URL writer wrote gives the same selection, in the same order, and the same flag. */
  lemma UrlRoundTrip(sel: seq<int>, includeChildren: bool)
    requires NoDup(sel)
    ensures InitialDisciplines(WrittenParams(sel, includeChildren)) == sel
    ensures InitialIncludeChildren(WrittenParams(sel, includeChildren)) == includeChildren
  {
    var ps := WrittenParams(sel, includeChildren);
    if |sel| > 0 {
      assert Get(ps, "disciplines") == Some(IdList(sel));
      var pieces := IdStrings(sel);
      assert forall i :: 0 <= i < |pieces| ==> ',' !in pieces[i];
      SplitJoin(pieces, ',');
      assert pieces[0] != "";
      assert IdList(sel) != "";
      ParsedNumbersOfWritten(sel);
      DedupOfDistinct(sel);
    } else {
      assert Get(ps, "disciplines") == None;
    }
  }

  /** Set.prototype.delete on an insertion-ordered set: the id goes, the others keep their order. */
  function Remove(sel: seq<int>, id: int): (r: seq<int>)
    ensures forall x :: x in r <==> x in sel && x != id
    ensures NoDup(sel) ==> NoDup(r)
    ensures IsSubsequence(r, sel)
  {
    if sel == [] then []
    else if sel[0] == id then Remove(sel[1..], id)
    else
      var rest := Remove(sel[1..], id);
      assert ([sel[0]] + rest)[1..] == rest;
      assert NoDup(sel) ==> NoDup(sel[1..]) && sel[0] !in sel[1..] && sel[0] !in rest;
      assert forall x :: x in sel <==> x == sel[0] || x in sel[1..] by {
        assert sel == [sel[0]] + sel[1..];
      }
      [sel[0]] + rest
  }

  /** toggleDiscipline on the insertion-ordered selection: a present id is deleted, an absent one added last. */
  function Toggled(sel: seq<int>, id: int): (r: seq<int>)
    ensures forall x :: x in r <==> (x in sel) != (x == id)
    ensures NoDup(sel) ==> NoDup(r)
  {
    if id in sel then Remove(sel, id) else sel + [id]
  }

  /** Toggling twice gives back the same set; the order is kept only when the id was absent. */
  lemma ToggleTwice(sel: seq<int>, id: int)
    requires NoDup(sel)
    ensures forall x :: x in Toggled(Toggled(sel, id), id) <==> x in sel
    ensures id !in sel ==> Toggled(Toggled(sel, id), id) == sel
  {
    if id !in sel {
      RemoveAppended(sel, id);
    }
  }

  lemma {:induction false} RemoveAppended(sel: seq<int>, id: int)
    requires id !in sel
    ensures Remove(sel + [id], id) == sel
  {
    if sel == [] {
      assert [] + [id] == [id];
    } else {
      assert (sel + [id])[1..] == sel[1..] + [id];
      RemoveAppended(sel[1..], id);
    }
  }

  /** A present id toggled off and on again moves to the end of the insertion order. */
  lemma ToggleTwiceMovesLast(sel: seq<int>, id: int)
    requires NoDup(sel) && id in sel
    ensures Toggled(Toggled(sel, id), id) == Remove(sel, id) + [id]
  {
  }

  /** toggleParentExpansion. */
  function ToggledSet(s: set<int>, id: int): (r: set<int>)
    ensures forall x :: x in r <==> (x in s) != (x == id)
  {
    if id in s then s - {id} else s + {id}
  }

  lemma ToggledSetTwice(s: set<int>, id: int)
    ensures ToggledSet(ToggledSet(s, id), id) == s
  {
  }

  /** A falsy `parent_id` (missing, null or 0) makes a top-level discipline. */
  predicate IsParent(d: Discipline) {
    !(d.parentId.Some? && d.parentId.value != 0)
  }

  function ParentDisciplines(ds: seq<Discipline>): seq<Discipline> {
    Filter(ds, (d: Discipline) => IsParent(d))
  }

  function ChildDisciplines(ds: seq<Discipline>): seq<Discipline> {
    Filter(ds, (d: Discipline) => !IsParent(d))
  }

  /** getChildren(p): the child disciplines whose parent_id is p, in list order. */
  function ChildrenOf(ds: seq<Discipline>, p: int): (r: seq<Discipline>)
    ensures forall i :: 0 <= i < |r| ==> r[i] in ds && r[i].parentId == Some(p) && p != 0
    ensures forall i :: 0 <= i < |ds| && ds[i].parentId == Some(p) && p != 0 ==> ds[i] in r
    ensures IsSubsequence(r, ds)
  {
    var children := ChildDisciplines(ds);
    var r := Filter(children, (d: Discipline) => d.parentId == Some(p));
    SubsequenceTransitive(r, children, ds);
    r
  }

  lemma {:induction false} SubsequenceTransitive(a: seq<Discipline>, b: seq<Discipline>, c: seq<Discipline>)
    requires IsSubsequence(a, b) && IsSubsequence(b, c)
    ensures IsSubsequence(a, c)
    decreases |c|
  {
    if a != [] {
      assert b != [] && c != [];
      if b[0] == c[0] && IsSubsequence(b[1..], c[1..]) {
        if a[0] == b[0] && IsSubsequence(a[1..], b[1..]) {
          SubsequenceTransitive(a[1..], b[1..], c[1..]);
        } else {
          SubsequenceTransitive(a, b[1..], c[1..]);
        }
      } else {
        SubsequenceTransitive(a, b, c[1..]);
      }
    }
  }

  /** Every discipline is a parent or a child, never both, and the two lists add up to the whole. */
  lemma {:induction false} ParentChildPartition(ds: seq<Discipline>)
    ensures |ParentDisciplines(ds)| + |ChildDisciplines(ds)| == |ds|
    ensures forall d :: d in ds ==> (d in ParentDisciplines(ds) <==> d !in ChildDisciplines(ds))
  {
    if ds != [] {
      ParentChildPartition(ds[1..]);
      forall d | d in ds ensures d in ParentDisciplines(ds) <==> d !in ChildDisciplines(ds) {
        assert d in ParentDisciplines(ds) ==> IsParent(d);
        assert d in ChildDisciplines(ds) ==> !IsParent(d);
        var i :| 0 <= i < |ds| && ds[i] == d;
      }
    }
  }

  /** A discipline that is a child (truthy parent_id) listed in `ids`. */
  predicate SelectedChild(d: Discipline, ids: seq<int>) {
    d.parentId.Some? && d.parentId.value != 0 && d.id in ids
  }

  /** The parents the discipline loader expands: parent_id of every listed child whose id is in `ids`. */
  function ParentsToExpand(ds: seq<Discipline>, ids: seq<int>): set<int> {
    if ds == [] then {}
    else
      var d := ds[|ds| - 1];
      ParentsToExpand(ds[..|ds| - 1], ids) + (if SelectedChild(d, ids) then {d.parentId.value} else {})
  }

  /** The expanded parents are exactly the parents of the selected children. */
  lemma {:induction false} ParentsToExpandExactly(ds: seq<Discipline>, ids: seq<int>, p: int)
    ensures p in ParentsToExpand(ds, ids) <==>
      exists i :: 0 <= i < |ds| && SelectedChild(ds[i], ids) && ds[i].parentId.value == p
  {
    if ds != [] {
      var init := ds[..|ds| - 1];
      ParentsToExpandExactly(init, ids, p);
      if i :| 0 <= i < |ds| && SelectedChild(ds[i], ids) && ds[i].parentId.value == p {
        if i < |ds| - 1 {
          assert init[i] == ds[i];
        }
      }
      if i :| 0 <= i < |init| && SelectedChild(init[i], ids) && init[i].parentId.value == p {
        assert ds[i] == init[i];
      }
    }
  }

  /** The query sent to /api/formulas or /api/terms: one discipline_id per selected id, then include_children. */
  function ApiParams(sel: seq<int>, includeChildren: bool): (r: Params)
    ensures |sel| == 0 ==> r == []
    ensures |sel| > 0 ==> |r| == |sel| + 1 && r[|sel|] == ("include_children", if includeChildren then "true" else "false")
    ensures forall i :: 0 <= i < |sel| ==> r[i].0 == "discipline_id" && ParseInt(r[i].1) == Some(sel[i])
  {
    if |sel| == 0 then []
    else
      var ids := seq(|sel|, i requires 0 <= i < |sel| => ("discipline_id", IntToString(sel[i])));
      forall i | 0 <= i < |sel| ensures ParseInt(ids[i].1) == Some(sel[i]) {
        ParseIntToString(sel[i]);
      }
      ids + [("include_children", if includeChildren then "true" else "false")]
  }

  /** The request URL: the API base, the endpoint, then the query when there is one. */
  function ApiUrl(apiBase: string, endpoint: string, sel: seq<int>, includeChildren: bool): string {
    WithQuery(apiBase + endpoint, ApiParams(sel, includeChildren))
  }

  /** The filter state of the formulas and terms pages. */
  class FilterPage {
    var selected: seq<int>
    var expanded: set<int>
    var includeChildren: bool
    var initialMount: bool

    ghost predicate Valid()
      reads this
    {
      NoDup(selected)
    }

    /** The state initialised from the URL on first render. */
    constructor (params: Params)
      ensures Valid()
      ensures selected == InitialDisciplines(params)
      ensures includeChildren == InitialIncludeChildren(params)
      ensures expanded == {} && initialMount
    {
      selected := InitialDisciplines(params);
      includeChildren := InitialIncludeChildren(params);
      expanded := {};
      initialMount := true;
    }

    /** The mount effect: from now on the URL writer runs. */
    method FinishMount()
      modifies this`initialMount
      ensures !initialMount
    {
      initialMount := false;
    }

    method ToggleDiscipline(id: int)
      requires Valid()
      modifies this`selected
      ensures Valid()
      ensures selected == Toggled(old(selected), id)
    {
      selected := Toggled(selected, id);
    }

    method ToggleParentExpansion(id: int)
      modifies this`expanded
      ensures expanded == ToggledSet(old(expanded), id)
    {
      expanded := ToggledSet(expanded, id);
    }

    method SetIncludeChildren(value: bool)
      modifies this`includeChildren
      ensures includeChildren == value
    {
      includeChildren := value;
    }

    /** clearFilters empties the selection; the include-children flag is outside its frame. */
    method ClearFilters()
      modifies this`selected
      ensures Valid() && selected == []
    {
      selected := [];
    }

    /**
     * After the disciplines load: when the URL lists ids, the parent of every listed child is
     * added to the expanded parents; nothing already expanded is collapsed.
     */
    method ExpandSelectedParents(ds: seq<Discipline>, params: Params)
      modifies this`expanded
      ensures var v := Get(params, "disciplines");
        expanded == old(expanded) + (if Truthy(v) then ParentsToExpand(ds, ParseIds(v.value)) else {})
    {
      var v := Get(params, "disciplines");
      if Truthy(v) {
        var ids := ParseIds(v.value);
        var parents: set<int> := {};
        var i := 0;
        while i < |ds|
          invariant 0 <= i <= |ds|
          invariant parents == ParentsToExpand(ds[..i], ids)
        {
          var d := ds[i];
          if d.parentId.Some? && d.parentId.value != 0 && d.id in ids {
            parents := parents + {d.parentId.value};
          }
          assert ds[..i + 1][..i] == ds[..i];
          i := i + 1;
        }
        assert ds[..|ds|] == ds;
        if |parents| > 0 {
          expanded := expanded + parents;
        }
      }
    }

    /**
     * The URL writer effect: nothing on the first render; afterwards a replacement when the
     * page URL for the current filters differs from the current one.
     */
    method UrlUpdate(path: string, currentUrl: string) returns (replaceWith: Option<string>)
      ensures initialMount ==> replaceWith == None
      ensures !initialMount && PageUrl(path, selected, includeChildren) == currentUrl ==> replaceWith == None
      ensures !initialMount && PageUrl(path, selected, includeChildren) != currentUrl ==>
        replaceWith == Some(PageUrl(path, selected, includeChildren))
    {
      if initialMount {
        return None;
      }
      var newUrl := PageUrl(path, selected, includeChildren);
      replaceWith := if newUrl != currentUrl then Some(newUrl) else None;
    }
  }
}
