/** The drill-down walk from the root `alice`: start, open `bob`, switch to `carol`
    in the same column, then return to `bob`, which is served from the cache. */
module DrillDownScenario {
  import opened FollowerCache
  import opened FollowerTree
  import opened TreeRenderer

  function Account(username: string): Follower
  {
    Follower(username, username, "", "")
  }

  const rootFollowers: seq<Follower> := [Account("bob"), Account("carol")]

  /** After start: only `alice` is shown and cached. */
  const started: State := State(["alice"], map["alice" := rootFollowers])

  /** After opening `bob`, whose only follower is `dave`. */
  const openedBob: State := State(["alice", "bob"], map["alice" := rootFollowers, "bob" := [Account("dave")]])

  lemma StartAlice()
    ensures Start("alice", Fetched(rootFollowers)) == Some(started)
    ensures Layout(started.path, started.cache) == [[Card(Account("bob"), false), Card(Account("carol"), false)]]
  {
    StartShowsRoot("alice", Fetched(rootFollowers));
    LayoutColumn(started.path, started.cache, 0);
    assert Layout(started.path, started.cache)[0] == [Card(Account("bob"), false), Card(Account("carol"), false)];
  }

  lemma OpenBob()
    ensures Step(started, Click(0, 0, Fetched([Account("dave")]))) == Transition(openedBob, Some(Request("bob", true)))
    ensures Layout(openedBob.path, openedBob.cache) ==
      [[Card(Account("bob"), true), Card(Account("carol"), false)], [Card(Account("dave"), false)]]
  {
    var t := Step(started, Click(0, 0, Fetched([Account("dave")])));
    assert t.shown.path == openedBob.path;
    assert t.shown.cache.Keys == openedBob.cache.Keys;
    LayoutColumn(openedBob.path, openedBob.cache, 0);
    LayoutColumn(openedBob.path, openedBob.cache, 1);
    assert Layout(openedBob.path, openedBob.cache)[0] == [Card(Account("bob"), true), Card(Account("carol"), false)];
    assert Layout(openedBob.path, openedBob.cache)[1] == [Card(Account("dave"), false)];
  }

  /** Switching to `carol` in column 0 fetches her followers and replaces column 1;
      going back to `bob` starts no fetch and shows his cached followers again. */
  lemma SwitchAndReturn(erin: seq<Follower>, ignored: FetchOutcome)
    ensures var t2 := Step(openedBob, Click(0, 1, Fetched(erin)));
      && t2.shown.path == ["alice", "carol"]
      && t2.request == Some(Request("carol", true))
      && Layout(t2.shown.path, t2.shown.cache)[1] == ColumnOf(erin, None)
      && var t3 := Step(t2.shown, Click(0, 0, ignored));
      && t3 == Transition(State(["alice", "bob"], t2.shown.cache), None)
      && t3.shown.cache["bob"] == [Account("dave")]
  {
  }
}
