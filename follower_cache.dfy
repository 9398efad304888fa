/** The memoizing cache of fetched follower lists (code.js:43-52).
    A cache is an immutable snapshot: merging a fetched list produces a new map and
    never changes the one it started from. */
module FollowerCache {

  /** One account in a follower list. `username` identifies the account; the other
      fields are display attributes that the tree only passes through. */
  datatype Follower = Follower(username: string, name: string, url: string, avatar: string)

  /** A frozen snapshot mapping a username to that account's follower list. */
  type Cache = map<string, seq<Follower>>

  /** `Object.assign(target, source)` on a fresh target object: every key of `source`
      is copied onto `target` in turn, so on a key both hold the value from `source`
      is the one that remains. */
  function Assign(target: Cache, source: Cache): (r: Cache)
    ensures r.Keys == target.Keys + source.Keys
    ensures forall k :: k in source ==> r[k] == source[k]
    ensures forall k :: k in target && k !in source ==> r[k] == target[k]
  {
    target + source
  }

  /** The cache built after `user`'s followers were fetched: a fresh object holding
      `user` first, onto which the existing cache is copied. Entries already present
      are copied last, so they win: the merge is first-write-wins. */
  function Merge(existing: Cache, user: string, followers: seq<Follower>): (r: Cache)
    ensures r.Keys == existing.Keys + {user}
    ensures forall k :: k in existing ==> r[k] == existing[k]
    ensures user !in existing ==> r[user] == followers
  {
    Assign(map[user := followers], existing)
  }

  /** `later` keeps every entry of `earlier` with its value unchanged. */
  ghost predicate Extends(earlier: Cache, later: Cache)
  {
    forall k :: k in earlier ==> k in later && later[k] == earlier[k]
  }

  /** Merging only adds: every key of the old snapshot stays, with the same list. */
  lemma MergeExtends(existing: Cache, user: string, followers: seq<Follower>)
    ensures Extends(existing, Merge(existing, user, followers))
    ensures user in Merge(existing, user, followers)
  {
  }

  /** A list already cached for `user` is never overwritten by a later fetch. */
  lemma MergeFirstWriteWins(existing: Cache, user: string, followers: seq<Follower>)
    requires user in existing
    ensures Merge(existing, user, followers) == existing
  {
  }

  /** Snapshots only ever grow: extension is transitive, so a chain of merges keeps
      every entry of the first snapshot. */
  lemma ExtendsTransitive(a: Cache, b: Cache, c: Cache)
    requires Extends(a, b) && Extends(b, c)
    ensures Extends(a, c)
  {
  }
}
