/** First-sign-in user sync (lib/checkUser.js): the identity provider's
    current user is copied into the store the first time it is seen, and the
    stored row is returned on every later call. The provider's session is an
    input; a failure inside the sync is swallowed and yields no user. */
module Users {
  import opened Results
  import opened Store

  /** The identity provider's view of the signed-in user. Missing names are
      `null` there. */
  datatype ClerkIdentity = ClerkIdentity(
    id: string, firstName: Option<string>, lastName: Option<string>,
    imageUrl: string, emailAddresses: seq<string>)

  /** A value interpolated into a template literal: `null` prints as "null". */
  function Interpolated(s: Option<string>): string {
    match s
    case Some(v) => v
    case None => "null"
  }

  /** `${firstName} ${lastName}`. */
  function DisplayName(c: ClerkIdentity): string {
    Interpolated(c.firstName) + " " + Interpolated(c.lastName)
  }

  /** No two user rows share an identity-provider id. */
  predicate UniqueClerkIds(users: seq<User>) {
    forall i, j :: 0 <= i < j < |users| ==> users[i].clerkUserId != users[j].clerkUserId
  }

  /** `checkUser()`: the user row for the signed-in identity `current`, created
      with id `newId` when it does not exist yet. Without a session there is no
      user; an identity with no email address makes the create throw, which is
      caught, so again there is no user and nothing is written. */
  function CheckUser(st: State, current: Option<ClerkIdentity>, newId: Id): (r: (State, Option<User>))
    ensures r.0.accounts == st.accounts && r.0.transactions == st.transactions && r.0.budgets == st.budgets
    ensures r.0.users == st.users || (exists u :: r.0.users == st.users + [u])
    ensures r.1.None? <==>
              current.None?
              || (FindUserByClerk(st, current.value.id).None? && |current.value.emailAddresses| == 0)
    ensures r.1.None? ==> r.0 == st
    // the returned row is the stored row of the signed-in identity
    ensures r.1.Some? ==> r.1.value in r.0.users && r.1.value.clerkUserId == current.value.id
    // an existing row is returned untouched and nothing is written
    ensures current.Some? && FindUserByClerk(st, current.value.id).Some? ==>
              r == (st, FindUserByClerk(st, current.value.id))
    // a new row carries the provider's name, first email and image
    ensures r.1.Some? && r.0 != st ==>
              && FindUserByClerk(st, current.value.id).None?
              && r.0.users == st.users + [r.1.value]
              && r.1.value.id == newId
              && r.1.value.name == DisplayName(current.value)
              && r.1.value.email == current.value.emailAddresses[0]
              && r.1.value.imageUrl == current.value.imageUrl
  {
    match current
    case None => (st, None)
    case Some(c) =>
      match FindUserByClerk(st, c.id)
      case Some(u) => (st, Some(u))
      case None =>
        if |c.emailAddresses| == 0 then (st, None)
        else
          var u := User(newId, c.id, DisplayName(c), c.emailAddresses[0], c.imageUrl);
          (st.(users := st.users + [u]), Some(u))
  }

  /** The sync never creates a second row for an identity that has one. */
  lemma CheckUserKeepsClerkIdsUnique(st: State, current: Option<ClerkIdentity>, newId: Id)
    requires UniqueClerkIds(st.users)
    ensures UniqueClerkIds(CheckUser(st, current, newId).0.users)
  {
    var (st2, u) := CheckUser(st, current, newId);
    if st2 != st {
      assert forall i :: 0 <= i < |st.users| ==> st.users[i] in st.users;
      assert forall i :: 0 <= i < |st.users| ==> st2.users[i] == st.users[i];
    }
  }

  /** Calling the sync again, for the same identity, changes nothing and
      returns the same row. */
  lemma CheckUserIdempotent(st: State, current: Option<ClerkIdentity>, newId: Id, newId2: Id)
    ensures var (st2, u) := CheckUser(st, current, newId);
            CheckUser(st2, current, newId2) == (st2, u)
  {
    var (st2, u) := CheckUser(st, current, newId);
    if u.Some? && st2 != st {
      var c := current.value;
      var n := |st.users|;
      assert st2.users[n] == u.value;
      assert forall j :: 0 <= j < n ==> st2.users[j] == st.users[j];
      assert forall j :: 0 <= j < n ==> st.users[j] in st.users;
      FirstWhereIs(st2.users, (v: User) => v.clerkUserId == c.id, n);
    }
  }
}
