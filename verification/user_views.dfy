/**
 * The user endpoints the collaboration screens call (core/users/views.py):
 * the users of a workspace, offered as assignees, and the bounded search
 * offered when inviting people. Both order by e-mail address.
 */
module UserViews {
  import opened Wrappers
  import opened Text
  import opened Sequences
  import opened ProjectModels
  import opened Db
  import opened Permissions

  /** The slice `[:5]` of `search_users`. */
  const SearchLimit: nat := 5

  /** A user's e-mail address; the empty string for a key with no user. */
  function EmailOf(s: Store, u: Id): string {
    if u in s.users.rows then s.users.rows[u].email else []
  }

  /** `order_by("email")`. */
  predicate EmailBefore(s: Store, a: Id, b: Id) {
    LexLe(EmailOf(s, a), EmailOf(s, b))
  }

  lemma {:induction false} EmailOrderIsTotal(s: Store)
    ensures TotalPreorder((a: Id, b: Id) => EmailBefore(s, a, b))
  {
    forall a: Id, b: Id
      ensures EmailBefore(s, a, b) || EmailBefore(s, b, a)
    {
      LexLeTotal(EmailOf(s, a), EmailOf(s, b));
    }
    forall a: Id, b: Id, c: Id | EmailBefore(s, a, b) && EmailBefore(s, b, c)
      ensures EmailBefore(s, a, c)
    {
      LexLeTransitive(EmailOf(s, a), EmailOf(s, b), EmailOf(s, c));
    }
  }

  /** `ids` ordered by e-mail address. */
  function SortByEmail(s: Store, ids: seq<Id>): (r: seq<Id>)
    ensures forall u :: u in r <==> u in ids
    ensures Distinct(ids) ==> Distinct(r)
    ensures forall i, j :: 0 <= i < j < |r| ==> EmailBefore(s, r[i], r[j])
  {
    var le := (a: Id, b: Id) => EmailBefore(s, a, b);
    EmailOrderIsTotal(s);
    var sorted := Sort(ids, le);
    PermutationKeepsElements(ids, sorted);
    sorted
  }

  /** `u` is a member of the workspace a query parameter names; a negative
      number names no workspace. */
  predicate MemberOfParam(s: Store, u: Id, workspace: int) {
    workspace >= 0 && IsWorkspaceMember(s, u, workspace)
  }

  /** `WorkspaceUserViewSet.get_queryset`: nothing without a `workspace`
      parameter, otherwise every member of that workspace once, by e-mail.
      The caller's own membership is not checked. */
  function WorkspaceUsers(s: Store, caller: Id, workspace: Option<int>): (r: Result<seq<Id>, Error>)
    requires Valid(s)
    ensures r.Err? <==> !Authenticated(s, caller)
    ensures r.Err? ==> r.error == NotAuthenticated
    ensures r.Ok? && workspace.None? ==> r.value == []
    ensures r.Ok? && workspace.Some? ==>
      && Distinct(r.value)
      && forall u :: u in r.value <==> u in s.users.rows && MemberOfParam(s, u, workspace.value)
    ensures r.Ok? ==> forall i, j :: 0 <= i < j < |r.value| ==> EmailBefore(s, r.value[i], r.value[j])
  {
    if caller !in s.users.rows then Err(NotAuthenticated)
    else if workspace.None? then Ok([])
    else
      var w := workspace.value;
      var ids := SelectKeys(s.users.rows, s.users.next, (u: Id) => MemberOfParam(s, u, w));
      Ok(SortByEmail(s, ids))
  }

  /** Two signed-in users asking for the same workspace get the same list,
      whether or not either of them belongs to it. */
  lemma WorkspaceUsersIgnoreCaller(s: Store, a: Id, b: Id, workspace: Option<int>)
    requires Valid(s) && Authenticated(s, a) && Authenticated(s, b)
    ensures WorkspaceUsers(s, a, workspace) == WorkspaceUsers(s, b, workspace)
  {
  }

  /** A user the search may offer: the address contains the query,
      ignoring case, and the user is not yet in the named workspace. */
  predicate Eligible(s: Store, u: Id, query: string, workspace: Option<int>) {
    && u in s.users.rows
    && ContainsIgnoreCase(s.users.rows[u].email, query)
    && !(workspace.Some? && MemberOfParam(s, u, workspace.value))
  }

  /** Every eligible user, by e-mail. */
  function Candidates(s: Store, query: string, workspace: Option<int>): (r: seq<Id>)
    requires s.users.Allocated()
    ensures Distinct(r)
    ensures forall u :: u in r <==> Eligible(s, u, query, workspace)
    ensures forall i, j :: 0 <= i < j < |r| ==> EmailBefore(s, r[i], r[j])
  {
    var ids := SelectKeys(s.users.rows, s.users.next, (u: Id) => Eligible(s, u, query, workspace));
    SortByEmail(s, ids)
  }

  /** `search_users`: the first five eligible users by e-mail for the
      trimmed query, or nothing when the query is blank. */
  function SearchUsers(s: Store, caller: Id, q: string, workspace: Option<int>): (r: Result<seq<Id>, Error>)
    requires Valid(s)
    ensures r.Err? <==> !Authenticated(s, caller)
    ensures r.Err? ==> r.error == NotAuthenticated
    ensures r.Ok? && AllSpace(q) ==> r.value == []
    ensures r.Ok? ==> |r.value| <= SearchLimit && Distinct(r.value)
    ensures r.Ok? ==> forall u :: u in r.value ==> Eligible(s, u, Trim(q), workspace)
    ensures r.Ok? ==> forall i, j :: 0 <= i < j < |r.value| ==> EmailBefore(s, r.value[i], r.value[j])
    ensures r.Ok? && !AllSpace(q) ==>
      (|r.value| == SearchLimit || forall u :: Eligible(s, u, Trim(q), workspace) ==> u in r.value)
    ensures r.Ok? && !AllSpace(q) ==>
      forall u, v :: u in r.value && Eligible(s, v, Trim(q), workspace) && v !in r.value ==> EmailBefore(s, u, v)
  {
    if caller !in s.users.rows then Err(NotAuthenticated)
    else
      var query := Trim(q);
      if query == [] then Ok([])
      else
        var all := Candidates(s, query, workspace);
        var found := Take(all, SearchLimit);
        TakeIsLeast(all, SearchLimit, (a: Id, b: Id) => EmailBefore(s, a, b));
        TakeKeepsDistinct(all, SearchLimit);
        Ok(found)
  }

  lemma {:induction false} TakeKeepsDistinct(xs: seq<Id>, n: nat)
    requires Distinct(xs)
    ensures Distinct(Take(xs, n))
  {
    var r := Take(xs, n);
    assert xs == r + xs[|r|..];
    assert multiset(xs) == multiset(r) + multiset(xs[|r|..]);
    forall x ensures multiset(r)[x] <= 1 {
      assert multiset(r)[x] <= multiset(xs)[x];
    }
  }
}
