/** The user search of the admin dashboard (`app/admin/page.tsx`). The page
    keeps the fetched users, the query and the filtered list in its state; the
    fetch sets both lists to the data, and an effect recomputes the filtered
    list whenever the query or the users change. */
module UserSearch {
  import opened Common
  import opened Tables

  predicate Matches(u: User, query: string) {
    Includes(Lower(u.name), Lower(query)) || Includes(Lower(u.email), Lower(query))
  }

  function FilteredUsers(users: seq<User>, query: string): seq<User> {
    Filter(users, (u: User) => Matches(u, query))
  }

  /** The page's state. */
  datatype View = View(users: seq<User>, query: string, filtered: seq<User>)

  /** The filtered list is the one the effect computes. */
  predicate Consistent(v: View) {
    v.filtered == FilteredUsers(v.users, v.query)
  }

  /** The effect on `[searchQuery, users]`. */
  function Recompute(v: View): View {
    v.(filtered := FilteredUsers(v.users, v.query))
  }

  /** The fetch handler: `setUsers(data)` and `setFilteredUsers(data)`; the
      users changed, so the effect runs next. */
  function Fetched(v: View, data: seq<User>): View {
    Recompute(Loaded(v, data))
  }

  /** The fetch handler's own update, before the effect reruns. */
  function Loaded(v: View, data: seq<User>): View {
    v.(users := data, filtered := data)
  }

  /** Typing in the search box: the query changed, so the effect runs next. */
  function Typed(v: View, query: string): View {
    Recompute(v.(query := query))
  }

  // ---------------------------------------------------------------------------

  /** A user is listed exactly when they were fetched and the lower-cased query
      occurs in their lower-cased name or email. */
  lemma ListedIffOccurs(users: seq<User>, query: string, u: User)
    ensures u in FilteredUsers(users, query) <==>
      u in users && (OccursIn(Lower(query), Lower(u.name)) || OccursIn(Lower(query), Lower(u.email)))
  {
    FilterKeepsExactly(users, (x: User) => Matches(x, query), u);
    IncludesMeansOccurs(Lower(u.name), Lower(query));
    IncludesMeansOccurs(Lower(u.email), Lower(query));
  }

  lemma ListedKeepOrder(users: seq<User>, query: string)
    ensures IsSubsequence(FilteredUsers(users, query), users)
  {
    FilterIsSubsequence(users, (u: User) => Matches(u, query));
  }

  /** An empty query lists every user. */
  lemma {:induction false} EmptyQueryListsAll(users: seq<User>)
    ensures FilteredUsers(users, "") == users
  {
    forall k | 0 <= k < |users| ensures Matches(users[k], "") {
      IncludesEmpty(Lower(users[k].name));
    }
    FilterKeepsAll(users, (u: User) => Matches(u, ""));
  }

  /** The fetch handler shows every fetched user at once. While the query is
      empty that is already the list the effect computes, so the effect's rerun
      changes nothing. */
  lemma {:induction false} FetchWithEmptyQueryShowsAll(v: View, data: seq<User>)
    ensures v.query == "" ==> Consistent(Loaded(v, data)) && Fetched(v, data) == Loaded(v, data)
  {
    if v.query == "" {
      EmptyQueryListsAll(data);
    }
  }

  /** A keystroke keeps the fetched users and lists some of them in their
      order; clearing the box lists them all again. */
  lemma {:induction false} TypingFiltersFetched(v: View, query: string)
    ensures Typed(v, query).users == v.users && Typed(v, query).query == query
    ensures IsSubsequence(Typed(v, query).filtered, v.users)
    ensures query == "" ==> Typed(v, query).filtered == v.users
  {
    ListedKeepOrder(v.users, query);
    if query == "" {
      EmptyQueryListsAll(v.users);
    }
  }
}
