/**
 * The friends sidebar (frontend/src/Components/FriendsWidget.jsx): which
 * users it suggests, how its search box narrows each tab, and how many
 * suggestions it shows. All lists are abstract lists of user records.
 */
module FriendsWidget {
  import opened Common
  import opened ClientData

  /**
   * The suggestions: every listed user except the signed-in one and those
   * whose id is in the friends, requests or sent-requests list (each
   * compared by `_id`), in list order; nobody at all without a signed-in
   * user.
   */
  function Suggestions(authUser: Option<Person>, users: seq<Person>, friends: seq<Person>, requests: seq<Person>, sentRequests: seq<Person>): (r: seq<Person>)
    ensures authUser.None? ==> r == []
    ensures forall u :: u in r <==>
              && u in users && authUser.Some? && u.id != authUser.value.id
              && !HasId(friends, u.id) && !HasId(requests, u.id) && !HasId(sentRequests, u.id)
    ensures forall u :: multiset(r)[u] ==
              if authUser.Some? && u.id != authUser.value.id && !HasId(friends, u.id) && !HasId(requests, u.id) && !HasId(sentRequests, u.id)
              then multiset(users)[u] else 0
    ensures IsSubsequence(r, users)
  {
    var keep := (u: Person) =>
      authUser.Some? && u.id != authUser.value.id && !HasId(friends, u.id) && !HasId(requests, u.id) && !HasId(sentRequests, u.id);
    FilterCountsAndOrder(users, keep);
    Filter(users, keep)
  }

  /**
   * The search predicate every tab uses: an empty query matches everyone;
   * otherwise the lower-cased name, or a non-empty lower-cased email, must
   * contain the lower-cased query.
   */
  predicate MatchesQuery(u: Person, query: string) {
    query == "" || Includes(Lower(u.fullName), Lower(query)) || (u.email != "" && Includes(Lower(u.email), Lower(query)))
  }

  /** One tab's list narrowed by the search box, in list order. */
  function Search(xs: seq<Person>, query: string): (r: seq<Person>)
    ensures forall u :: u in r <==> u in xs && MatchesQuery(u, query)
    ensures forall u :: multiset(r)[u] == if MatchesQuery(u, query) then multiset(xs)[u] else 0
    ensures IsSubsequence(r, xs)
  {
    FilterCountsAndOrder(xs, (u: Person) => MatchesQuery(u, query));
    Filter(xs, (u: Person) => MatchesQuery(u, query))
  }

  /** An empty search box shows every list unchanged. */
  lemma EmptyQueryKeepsAll(xs: seq<Person>)
    ensures Search(xs, "") == xs
  {
    FilterKeepsAll(xs, (u: Person) => MatchesQuery(u, ""));
  }

  /** The suggestions tab: the first five suggestions that match the search box. */
  function ShownSuggestions(suggestions: seq<Person>, query: string): (r: seq<Person>)
    ensures |r| <= 5
    ensures |r| == if |Search(suggestions, query)| < 5 then |Search(suggestions, query)| else 5
    ensures r == Search(suggestions, query)[..|r|]
  {
    var matching := Search(suggestions, query);
    if |matching| <= 5 then matching else matching[..5]
  }

  /** What the suggestions tab shows never holds the signed-in user or an id found in the friends, requests or sent-requests list. */
  lemma {:induction false} ShownSuggestionsAreStrangers(authUser: Option<Person>, users: seq<Person>, friends: seq<Person>, requests: seq<Person>, sentRequests: seq<Person>, query: string)
    ensures forall u :: u in ShownSuggestions(Suggestions(authUser, users, friends, requests, sentRequests), query) ==>
              && u in users && authUser.Some? && u.id != authUser.value.id
              && !HasId(friends, u.id) && !HasId(requests, u.id) && !HasId(sentRequests, u.id)
  {
    var s := Suggestions(authUser, users, friends, requests, sentRequests);
    var m := Search(s, query);
    var shown := ShownSuggestions(s, query);
    forall u | u in shown ensures u in m {
      var i :| 0 <= i < |shown| && shown[i] == u;
      assert m[i] == u;
    }
  }

  /** Lower-casing distributes over concatenation. */
  lemma LowerConcat(a: string, b: string)
    ensures Lower(a + b) == Lower(a) + Lower(b)
  {
  }

  /** A text that contains `a + b` contains `a`. */
  lemma {:induction false} IncludesPrefix(hay: string, a: string, b: string)
    requires Includes(hay, a + b)
    ensures Includes(hay, a)
  {
    var i :| OccursAt(hay, a + b, i);
    assert hay[i..i + |a|] == (a + b)[..|a|];
    assert OccursAt(hay, a, i);
  }

  /**
   * Typing more narrows the search: whoever matches a query extended at
   * the end also matches the shorter query.
   */
  lemma {:induction false} LongerQueryNarrows(xs: seq<Person>, query: string, more: string)
    ensures forall u :: u in Search(xs, query + more) ==> u in Search(xs, query)
  {
    LowerConcat(query, more);
    forall u | u in Search(xs, query + more) ensures MatchesQuery(u, query) {
      if query != "" {
        if Includes(Lower(u.fullName), Lower(query + more)) {
          IncludesPrefix(Lower(u.fullName), Lower(query), Lower(more));
        } else {
          IncludesPrefix(Lower(u.email), Lower(query), Lower(more));
        }
      }
    }
  }
}
