/** Rendering the drill-down tree (code.js:80-116): one column per username on the
    path, each listing that user's cached followers, with the follower chosen in the
    next column marked as selected. The view is rebuilt wholesale on every render. */
module TreeRenderer {
  import opened FollowerCache
  import opened FollowerTree

  /** One follower card and whether it is drawn as selected. */
  datatype Card = Card(follower: Follower, selected: bool)

  /** `selection[k]` in JavaScript: the element, or `undefined` past the end. */
  function At(path: seq<string>, k: nat): (r: Option<string>)
    ensures r.Some? <==> k < |path|
    ensures r.Some? ==> r.value == path[k]
  {
    if k < |path| then Some(path[k]) else None
  }

  /** The cards of one column: every follower in order, marked when its username is
      the column's selection (a comparison with `undefined` never holds). */
  function ColumnOf(followers: seq<Follower>, selection: Option<string>): (col: seq<Card>)
    ensures |col| == |followers|
    ensures forall j :: 0 <= j < |col| ==> col[j].follower == followers[j]
    ensures forall j :: 0 <= j < |col| ==> (col[j].selected <==> selection == Some(followers[j].username))
  {
    if followers == [] then []
    else [Card(followers[0], selection == Some(followers[0].username))] + ColumnOf(followers[1..], selection)
  }

  /** The whole tree: column `i` lists the followers cached for `path[i]`, and the
      entry equal to `path[i+1]` is the selected one; the last column has none. */
  function Layout(path: seq<string>, cache: Cache): (cols: seq<seq<Card>>)
    requires forall k :: 0 <= k < |path| ==> path[k] in cache
    ensures |cols| == |path|
    ensures forall i :: 0 <= i < |cols| ==> |cols[i]| == |cache[path[i]]|
    ensures forall i, j :: 0 <= i < |cols| && 0 <= j < |cols[i]| ==> cols[i][j].follower == cache[path[i]][j]
    ensures forall i, j :: 0 <= i < |cols| && 0 <= j < |cols[i]| ==>
      (cols[i][j].selected <==> i + 1 < |path| && cache[path[i]][j].username == path[i + 1])
  {
    if path == [] then []
    else [ColumnOf(cache[path[0]], At(path, 1))] + Layout(path[1..], cache)
  }

  /** Column `i` of the layout is the column built for `path[i]` with `path[i+1]` as
      its selection. */
  lemma LayoutColumn(path: seq<string>, cache: Cache, i: nat)
    requires forall k :: 0 <= k < |path| ==> path[k] in cache
    requires i < |path|
    ensures Layout(path, cache)[i] == ColumnOf(cache[path[i]], At(path, i + 1))
  {
  }

  /** `generateFollowerColumn`: a `forEach` over the followers appending one card each. */
  method GenerateFollowerColumn(followers: seq<Follower>, selection: Option<string>) returns (ul: seq<Card>)
    ensures ul == ColumnOf(followers, selection)
  {
    ul := [];
    var j := 0;
    while j < |followers|
      invariant 0 <= j <= |followers|
      invariant |ul| == j
      invariant forall m :: 0 <= m < j ==> ul[m] == Card(followers[m], selection == Some(followers[m].username))
    {
      var follower := followers[j];
      ul := ul + [Card(follower, selection == Some(follower.username))];
      j := j + 1;
    }
    var expected := ColumnOf(followers, selection);
    assert forall m :: 0 <= m < |ul| ==> ul[m] == expected[m];
  }

  /** The container the tree is drawn into; its children are follower trees. */
  class View {
    var children: seq<seq<seq<Card>>>

    constructor ()
      ensures children == []
    {
      children := [];
    }

    /** `renderFollowerTree`: remove every child of the container, build one column per
        path element in order, and append the new tree. */
    method RenderFollowerTree(path: seq<string>, cache: Cache)
      requires forall k :: 0 <= k < |path| ==> path[k] in cache
      modifies this
      ensures children == [Layout(path, cache)]
    {
      while |children| > 0
        decreases |children|
      {
        children := children[1..];
      }
      var tree: seq<seq<Card>> := [];
      var index := 0;
      while index < |path|
        invariant 0 <= index <= |path|
        invariant children == []
        invariant |tree| == index
        invariant forall i :: 0 <= i < index ==> tree[i] == Layout(path, cache)[i]
      {
        var nextSelection := if |path| >= index + 1 then At(path, index + 1) else None;
        var column := GenerateFollowerColumn(cache[path[index]], nextSelection);
        LayoutColumn(path, cache, index);
        tree := tree + [column];
        index := index + 1;
      }
      assert tree == Layout(path, cache);
      children := children + [tree];
    }
  }

  /** In a rendered state every column but the last has a selected entry, and when a
      column's usernames are distinct it has exactly one; the last column has none. */
  lemma SelectionMarked(s: State, i: nat)
    requires Valid(s)
    requires i < |s.path|
    ensures i + 1 == |s.path| ==> forall j :: 0 <= j < |Layout(s.path, s.cache)[i]| ==> !Layout(s.path, s.cache)[i][j].selected
    ensures i + 1 < |s.path| ==> exists j :: 0 <= j < |Layout(s.path, s.cache)[i]| && Layout(s.path, s.cache)[i][j].selected
    ensures (forall j1, j2 :: 0 <= j1 < j2 < |s.cache[s.path[i]]| ==> s.cache[s.path[i]][j1].username != s.cache[s.path[i]][j2].username) ==>
      forall j1, j2 ::
        (0 <= j1 < |Layout(s.path, s.cache)[i]| && 0 <= j2 < |Layout(s.path, s.cache)[i]| &&
         Layout(s.path, s.cache)[i][j1].selected && Layout(s.path, s.cache)[i][j2].selected) ==> j1 == j2
  {
    var col := Layout(s.path, s.cache)[i];
    var fs := s.cache[s.path[i]];
    if i + 1 < |s.path| {
      assert ClickedAt(s.path, s.cache, i + 1);
      var j :| 0 <= j < |fs| && fs[j].username == s.path[i + 1];
      assert col[j].selected;
    }
  }

  /** Clicking a card that renders (a cached user, or a fetch that succeeds) keeps
      every column left of the clicked one exactly as it was, keeps the clicked column's
      followers with the clicked user now selected, and ends with the clicked user's
      followers as the last column, with nothing selected. */
  lemma ClickRerender(s: State, a: Action)
    requires Valid(s)
    requires OnCard(s, a)
    requires ClickedUser(s, a) in s.cache || a.outcome.Fetched?
    ensures Step(s, a).shown.path == NextPath(s.path, a.column, ClickedUser(s, a))
    ensures forall k :: 0 <= k < a.column ==>
      Layout(Step(s, a).shown.path, Step(s, a).shown.cache)[k] == Layout(s.path, s.cache)[k]
    ensures Layout(Step(s, a).shown.path, Step(s, a).shown.cache)[a.column] ==
      ColumnOf(s.cache[s.path[a.column]], Some(ClickedUser(s, a)))
    ensures Layout(Step(s, a).shown.path, Step(s, a).shown.cache)[a.column + 1] ==
      ColumnOf(Step(s, a).shown.cache[ClickedUser(s, a)], None)
    ensures Step(s, a).shown.cache[ClickedUser(s, a)] ==
      if ClickedUser(s, a) in s.cache then s.cache[ClickedUser(s, a)] else a.outcome.followers
  {
    StepPreservesValid(s, a);
    var t := Step(s, a).shown;
    var i := a.column;
    forall k | 0 <= k < i
      ensures Layout(t.path, t.cache)[k] == Layout(s.path, s.cache)[k]
    {
      LayoutColumn(t.path, t.cache, k);
      LayoutColumn(s.path, s.cache, k);
      assert t.path[k] == s.path[k] && t.path[k + 1] == s.path[k + 1];
    }
    LayoutColumn(t.path, t.cache, i);
    LayoutColumn(t.path, t.cache, i + 1);
  }
}
