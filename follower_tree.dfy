/** The drill-down tree's selection cycle (code.js:96-125): the path of selected
    usernames and the cache are threaded from one render to the next. The fetch is an
    input of each transition: its outcome is either the fetched list or a failure. */
module FollowerTree {
  import opened FollowerCache

  datatype Option<T> = None | Some(value: T)

  /** What a fetch of one user's followers resolved with (code.js:31-34). */
  datatype FetchOutcome = Fetched(followers: seq<Follower>) | FetchFailed

  /** The pair that fully determines the displayed tree. */
  datatype State = State(path: seq<string>, cache: Cache)

  /** What clicking a username does first: either the cache lacks that user and a
      fetch is started for the new path, or the tree is re-rendered at once. */
  datatype Selected = NeedFetch(nextPath: seq<string>, user: string) | Render(next: State)

  /** `followers` lists an account named `u`. */
  ghost predicate Lists(followers: seq<Follower>, u: string)
  {
    exists j :: 0 <= j < |followers| && followers[j].username == u
  }

  /** The username at position `k` of `path` was clicked in the column of the one
      before it: that user's cached followers list it. */
  ghost predicate ClickedAt(path: seq<string>, cache: Cache, k: int)
  {
    && 1 <= k < |path|
    && path[k - 1] in cache
    && Lists(cache[path[k - 1]], path[k])
  }

  /** The invariant of every rendered state: the path is non-empty, each username on
      it has its followers cached, and each username after the root was clicked in the
      column of the username before it. */
  ghost predicate Valid(s: State)
  {
    && |s.path| >= 1
    && (forall k :: 0 <= k < |s.path| ==> s.path[k] in s.cache)
    && (forall k :: 1 <= k < |s.path| ==> ClickedAt(s.path, s.cache, k))
  }

  /** `selection.slice(0, index+1).concat(username)`: the path up to and including the
      clicked column, followed by the clicked username. */
  function NextPath(path: seq<string>, index: nat, u: string): (r: seq<string>)
    requires index < |path|
    ensures |r| == index + 2
    ensures forall k :: 0 <= k <= index ==> r[k] == path[k]
    ensures r[index + 1] == u
  {
    path[..index + 1] + [u]
  }

  /** The click handler of column `index` (code.js:98-107). */
  function Select(s: State, index: nat, u: string): (r: Selected)
    requires index < |s.path|
    ensures r.NeedFetch? <==> u !in s.cache
    ensures r.NeedFetch? ==> r.nextPath == NextPath(s.path, index, u) && r.user == u
    ensures r.Render? ==> r.next.path == NextPath(s.path, index, u) && r.next.cache == s.cache
  {
    var nextPath := NextPath(s.path, index, u);
    if u !in s.cache then NeedFetch(nextPath, u) else Render(State(nextPath, s.cache))
  }

  /** `fetchAndCacheFollowersForUser` followed by the render it triggers: on success the
      fetched list is merged into the cache the handler captured and the new path is
      shown; on failure nothing is rendered (`None`). */
  function Complete(captured: Cache, nextPath: seq<string>, user: string, outcome: FetchOutcome): (r: Option<State>)
    ensures r.Some? <==> outcome.Fetched?
    ensures r.Some? ==> r.value.path == nextPath
    ensures r.Some? ==> r.value.cache.Keys == captured.Keys + {user}
    ensures r.Some? ==> Extends(captured, r.value.cache)
    ensures r.Some? && user !in captured ==> r.value.cache[user] == outcome.followers
  {
    match outcome
    case FetchFailed => None
    case Fetched(followers) => Some(State(nextPath, Merge(captured, user, followers)))
  }

  /** `performStart` (code.js:118-125): fetch the root's followers into an empty cache
      and show the path holding only the root. */
  function Start(root: string, outcome: FetchOutcome): (r: Option<State>)
    ensures r.Some? <==> outcome.Fetched?
    ensures r.Some? ==> r.value == State([root], map[root := outcome.followers])
  {
    Complete(map[], [root], root, outcome)
  }

  /** The state Start shows satisfies the invariant. */
  lemma StartShowsRoot(root: string, outcome: FetchOutcome)
    ensures Start(root, outcome).Some? ==> Valid(Start(root, outcome).value)
  {
  }

  /** One click of the user: entry `entry` of column `column`, and how the fetch it may
      start turns out. */
  datatype Action = Click(column: nat, entry: nat, outcome: FetchOutcome)

  /** A fetch that was started, and whether it succeeded. */
  datatype Request = Request(user: string, succeeded: bool)

  /** The state shown after an action, and the fetch the action started, if any. */
  datatype Transition = Transition(shown: State, request: Option<Request>)

  /** The click lands on a card of the rendered tree. */
  predicate OnCard(s: State, a: Action)
  {
    a.column < |s.path| && s.path[a.column] in s.cache && a.entry < |s.cache[s.path[a.column]]|
  }

  /** The username on the clicked card (`follower.username` at code.js:58). */
  function ClickedUser(s: State, a: Action): string
    requires OnCard(s, a)
  {
    s.cache[s.path[a.column]][a.entry].username
  }

  /** One action applied to the shown state. A click lands on a card only where the
      rendered tree has one; elsewhere there is no handler and nothing happens. On a
      card, a cached user is re-rendered at once; an uncached one is fetched, and the
      new tree is shown only if the fetch succeeds. */
  function Step(s: State, a: Action): (t: Transition)
    ensures !OnCard(s, a) ==> t == Transition(s, None)
    ensures OnCard(s, a) ==> (t.request.Some? <==> ClickedUser(s, a) !in s.cache)
    ensures OnCard(s, a) && t.request.Some? ==> t.request.value == Request(ClickedUser(s, a), a.outcome.Fetched?)
    ensures OnCard(s, a) && ClickedUser(s, a) in s.cache ==>
      t.shown == State(NextPath(s.path, a.column, ClickedUser(s, a)), s.cache)
    ensures OnCard(s, a) && ClickedUser(s, a) !in s.cache && a.outcome.Fetched? ==>
      t.shown == State(NextPath(s.path, a.column, ClickedUser(s, a)), Merge(s.cache, ClickedUser(s, a), a.outcome.followers))
    ensures OnCard(s, a) && ClickedUser(s, a) !in s.cache && a.outcome.FetchFailed? ==> t.shown == s
  {
    if OnCard(s, a) then
      var u := ClickedUser(s, a);
      match Select(s, a.column, u)
      case Render(next) => Transition(next, None)
      case NeedFetch(nextPath, user) =>
        match Complete(s.cache, nextPath, user, a.outcome)
        case Some(next) => Transition(next, Some(Request(user, true)))
        case None => Transition(s, Some(Request(user, false)))
    else
      Transition(s, None)
  }

  /** Each action keeps the invariant, only adds to the cache, and starts a fetch only
      for a username the cache lacks; a successful fetch leaves that user cached. */
  lemma StepPreservesValid(s: State, a: Action)
    requires Valid(s)
    ensures Valid(Step(s, a).shown)
    ensures Extends(s.cache, Step(s, a).shown.cache)
    ensures Step(s, a).request.Some? ==> Step(s, a).request.value.user !in s.cache
    ensures Step(s, a).request.Some? && Step(s, a).request.value.succeeded ==>
      Step(s, a).request.value.user in Step(s, a).shown.cache
    ensures Step(s, a).request.None? ==> Step(s, a).shown.cache == s.cache
  {
    var t := Step(s, a);
    if OnCard(s, a) {
      var i := a.column;
      var u := ClickedUser(s, a);
      assert Lists(s.cache[s.path[i]], u);
      var p := NextPath(s.path, i, u);
      var c := t.shown.cache;
      if t.shown != s {
        assert t.shown.path == p;
        assert Extends(s.cache, c);
        assert u in c;
        forall k | 0 <= k < |p| ensures p[k] in c {
          if k <= i {
            assert p[k] == s.path[k];
          }
        }
        forall k | 1 <= k < |p| ensures ClickedAt(p, c, k) {
          if k <= i {
            assert p[k] == s.path[k] && p[k - 1] == s.path[k - 1];
            assert ClickedAt(s.path, s.cache, k);
          } else {
            assert p[k - 1] == s.path[i] && p[k] == u;
          }
        }
      }
    }
  }

  /** The shown state and the log of fetches after a sequence of actions. */
  function Run(s: State, actions: seq<Action>): (r: (State, seq<Request>))
    ensures |r.1| <= |actions|
    ensures Extends(s.cache, r.0.cache)
    ensures forall p :: 0 <= p < |r.1| ==> r.1[p].user !in s.cache
    decreases |actions|
  {
    if actions == [] then (s, [])
    else
      var t := Step(s, actions[0]);
      var rest := Run(t.shown, actions[1..]);
      (rest.0, (if t.request.Some? then [t.request.value] else []) + rest.1)
  }

  /** Memoization: over any sequence of clicks the invariant holds at every render,
      the cache only grows, no fetch is started for a username cached at the start,
      and once a fetch of a username succeeded no later fetch of it is started. */
  lemma {:induction false} RunMemoizes(s: State, actions: seq<Action>)
    requires Valid(s)
    ensures Valid(Run(s, actions).0)
    ensures Extends(s.cache, Run(s, actions).0.cache)
    ensures forall p :: 0 <= p < |Run(s, actions).1| ==> Run(s, actions).1[p].user !in s.cache
    ensures forall p, q :: 0 <= p < q < |Run(s, actions).1| && Run(s, actions).1[p].user == Run(s, actions).1[q].user ==>
      !Run(s, actions).1[p].succeeded
    decreases |actions|
  {
    if actions != [] {
      var t := Step(s, actions[0]);
      StepPreservesValid(s, actions[0]);
      RunMemoizes(t.shown, actions[1..]);
      var rest := Run(t.shown, actions[1..]);
      var head: seq<Request> := if t.request.Some? then [t.request.value] else [];
      var log := Run(s, actions).1;
      assert log == head + rest.1;
      ExtendsTransitive(s.cache, t.shown.cache, rest.0.cache);
      forall p | 0 <= p < |log| ensures log[p].user !in s.cache {
        if p >= |head| {
          assert log[p] == rest.1[p - |head|];
        }
      }
      forall p, q | 0 <= p < q < |log| && log[p].user == log[q].user ensures !log[p].succeeded {
        if p >= |head| {
          assert log[p] == rest.1[p - |head|] && log[q] == rest.1[q - |head|];
        } else {
          assert log[q] == rest.1[q - 1];
        }
      }
    }
  }
}
