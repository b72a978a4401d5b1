/**
  Saving the signed-in user: SaveUser and reconcileUser of internal/users/manager.go over the
  rows of internal/db/users.go.
 */
module Users {
  import opened Wrappers

  datatype User = User(id: int, name: string, organization: string, externalId: string, email: string)

  datatype SaveRequest = SaveRequest(name: Option<string>, organization: Option<string>, email: string)

  /** Letter case belongs to the database (lower) and to the program (sameFold). */
  datatype Folding = Folding(lower: string -> string, sameFold: (string, string) -> bool)

  datatype Reply = BadRequest | ServerError | NoContent | Created(user: User)

  // ----- Trimming -----

  predicate IsSpace(c: char)
  {
    '\t' <= c <= '\r' || c == ' ' || c == '\U{85}' || c == '\U{A0}' || c == '\U{1680}' || '\U{2000}' <= c <= '\U{200A}' ||
    c == '\U{2028}' || c == '\U{2029}' || c == '\U{202F}' || c == '\U{205F}' || c == '\U{3000}'
  }

  function Trim(s: string): (r: string)
    ensures r != "" ==> !IsSpace(r[0]) && !IsSpace(r[|r| - 1])
    ensures |r| <= |s|
  {
    if s == "" then ""
    else if IsSpace(s[0]) then Trim(s[1..])
    else if IsSpace(s[|s| - 1]) then Trim(s[..|s| - 1])
    else s
  }

  // ----- Rows -----

  function WithExternalId(users: seq<User>, externalId: string): (r: seq<User>)
    ensures forall u :: u in r <==> u in users && u.externalId == externalId
  {
    if users == [] then [] else
      (if users[0].externalId == externalId then [users[0]] else []) + WithExternalId(users[1..], externalId)
  }

  function WithEmail(users: seq<User>, email: string, folding: Folding): (r: seq<User>)
    ensures forall u :: u in r <==> u in users && folding.lower(u.email) == folding.lower(email)
  {
    if users == [] then [] else
      (if folding.lower(users[0].email) == folding.lower(email) then [users[0]] else []) +
      WithEmail(users[1..], email, folding)
  }

  /** The rows after an update of one user, and how many rows it hit. */
  function Updated(users: seq<User>, user: User): (r: (seq<User>, nat))
    ensures |r.0| == |users|
    ensures forall i :: 0 <= i < |users| ==> r.0[i] == if users[i].id == user.id then user else users[i]
  {
    if users == [] then ([], 0) else
      var rest := Updated(users[1..], user);
      if users[0].id == user.id then ([user] + rest.0, rest.1 + 1) else ([users[0]] + rest.0, rest.1)
  }

  function Normalized(value: Option<string>, existing: string): string
  {
    if value.None? || Trim(value.value) == "" then existing else Trim(value.value)
  }

  // ----- The state and its calls -----

  datatype State = State(users: seq<User>, nextId: int)

  ghost predicate UniqueIds(s: State)
  {
    (forall i, j :: 0 <= i < j < |s.users| ==> s.users[i].id != s.users[j].id) &&
    (forall u :: u in s.users ==> u.id < s.nextId)
  }

  ghost predicate UniqueExternalIds(users: seq<User>)
  {
    forall i, j :: 0 <= i < j < |users| ==> users[i].externalId != users[j].externalId
  }

  /** Another row holds the email; the unique index on emails refuses the update. */
  predicate EmailTaken(users: seq<User>, user: User)
  {
    exists u :: u in users && u.id != user.id && u.email == user.email
  }

  ghost predicate UniqueEmails(users: seq<User>)
  {
    forall i, j :: 0 <= i < j < |users| ==> users[i].email != users[j].email
  }

  function Reconciled(existing: User, request: SaveRequest, subject: string): User
  {
    User(existing.id, Normalized(request.name, existing.name), Normalized(request.organization, existing.organization),
         subject, Trim(request.email))
  }

  /** No write is needed when only the letter case of the email differs. */
  predicate Settled(existing: User, updated: User, folding: Folding)
  {
    updated.name == existing.name && updated.organization == existing.organization &&
    updated.externalId == existing.externalId && folding.sameFold(updated.email, existing.email)
  }

  function Reconcile(s: State, existing: User, request: SaveRequest, subject: string, folding: Folding): (State, Reply)
  {
    var updated := Reconciled(existing, request, subject);
    if Settled(existing, updated, folding) then (s, NoContent)
    else
      var (rows, hits) := Updated(s.users, updated);
      if hits == 1 && !EmailTaken(s.users, updated) then (s.(users := rows), NoContent) else (s, ServerError)
  }

  /** What saving a user does to the rows, and the answer. */
  function Saved(s: State, request: SaveRequest, identity: Option<string>, folding: Folding): (State, Reply)
  {
    var email := Trim(request.email);
    if email == "" || identity.None? then (s, BadRequest) else
      var subject := identity.value;
      var byExternalId := WithExternalId(s.users, subject);
      if |byExternalId| > 1 then (s, ServerError)
      else if |byExternalId| == 1 then Reconcile(s, byExternalId[0], request, subject, folding)
      else
        var byEmail := WithEmail(s.users, email, folding);
        if |byEmail| > 1 then (s, ServerError)
        else if |byEmail| == 1 then Reconcile(s, byEmail[0], request, subject, folding)
        else
          var user := User(s.nextId, Normalized(request.name, ""), Normalized(request.organization, ""), subject, email);
          (State(s.users + [user], s.nextId + 1), Created(user))
  }

  // ----- Laws of one call -----

  lemma {:induction false} OneHit(users: seq<User>, user: User)
    requires forall i, j :: 0 <= i < j < |users| ==> users[i].id != users[j].id
    ensures Updated(users, user).1 == if exists u :: u in users && u.id == user.id then 1 else 0
    decreases |users|
  {
    if users != [] {
      OneHit(users[1..], user);
      assert forall u :: u in users <==> u == users[0] || u in users[1..];
      assert forall k :: 0 < k < |users| ==> users[k].id != users[0].id;
    }
  }

  lemma {:induction false} NobodyElse(users: seq<User>, externalId: string)
    requires forall u :: u in users ==> u.externalId != externalId
    ensures WithExternalId(users, externalId) == []
    decreases |users|
  {
    if users != [] {
      assert users[0] in users && forall u :: u in users[1..] ==> u in users;
      NobodyElse(users[1..], externalId);
    }
  }

  lemma {:induction false} OnlyHolder(users: seq<User>, user: User)
    requires UniqueExternalIds(users) && user in users
    ensures WithExternalId(users, user.externalId) == [user]
    decreases |users|
  {
    assert forall k :: 0 < k < |users| ==> users[k].externalId != users[0].externalId;
    if users[0].externalId == user.externalId {
      assert users[0] == user;
      NobodyElse(users[1..], user.externalId);
    } else {
      OnlyHolder(users[1..], user);
    }
  }

  lemma HoldersUnique(users: seq<User>, externalId: string)
    requires UniqueExternalIds(users)
    ensures |WithExternalId(users, externalId)| <= 1
  {
    var found := WithExternalId(users, externalId);
    if found != [] {
      assert found[0] in found;
      OnlyHolder(users, found[0]);
    }
  }

  /** An update that hits one row changes that row alone. */
  lemma UpdatedRow(users: seq<User>, user: User)
    requires forall i, j :: 0 <= i < j < |users| ==> users[i].id != users[j].id
    requires exists u :: u in users && u.id == user.id
    ensures Updated(users, user).1 == 1 && user in Updated(users, user).0
  {
    OneHit(users, user);
    var u :| u in users && u.id == user.id;
    var i :| 0 <= i < |users| && users[i] == u;
    assert Updated(users, user).0[i] == user;
  }

  lemma UpdatedUnique(s: State, user: User)
    requires UniqueIds(s) && UniqueExternalIds(s.users)
    requires exists u :: u in s.users && u.id == user.id
    requires forall u :: u in s.users && u.id != user.id ==> u.externalId != user.externalId
    ensures UniqueIds(s.(users := Updated(s.users, user).0)) && UniqueExternalIds(Updated(s.users, user).0)
  {
    hide Updated;
    var rows := Updated(s.users, user).0;
    assert forall i :: 0 <= i < |rows| ==> rows[i].id == s.users[i].id;
    forall u | u in rows ensures u.id < s.nextId {
      var i :| 0 <= i < |rows| && rows[i] == u;
      assert s.users[i] in s.users;
    }
    UpdatedIdentities(s.users, user);
  }

  lemma UpdatedIdentities(users: seq<User>, user: User)
    requires UniqueExternalIds(users)
    requires forall i, j :: 0 <= i < j < |users| ==> users[i].id != users[j].id
    requires forall u :: u in users && u.id != user.id ==> u.externalId != user.externalId
    ensures UniqueExternalIds(Updated(users, user).0)
  {
    hide Updated;
    var rows := Updated(users, user).0;
    forall i, j | 0 <= i < j < |rows| ensures rows[i].externalId != rows[j].externalId {
      var a, b := users[i], users[j];
      assert a in users && b in users && a.id != b.id && a.externalId != b.externalId;
    }
  }

  ghost predicate Unique(s: State) { UniqueIds(s) && UniqueExternalIds(s.users) && UniqueEmails(s.users) }

  lemma UpdatedEmails(users: seq<User>, user: User)
    requires UniqueEmails(users) && !EmailTaken(users, user)
    requires forall i, j :: 0 <= i < j < |users| ==> users[i].id != users[j].id
    ensures UniqueEmails(Updated(users, user).0)
  {
    hide Updated;
    var rows := Updated(users, user).0;
    forall i, j | 0 <= i < j < |rows| ensures rows[i].email != rows[j].email {
      var a, b := users[i], users[j];
      assert a in users && b in users && a.id != b.id && a.email != b.email;
    }
  }

  /** A reconciliation keeps the rows unique; it fails exactly when it changes something and the email is taken. */
  lemma ReconcileHolds(s: State, existing: User, request: SaveRequest, subject: string, folding: Folding)
    requires Unique(s) && existing in s.users
    requires forall u :: u in s.users && u.id != existing.id ==> u.externalId != subject
    ensures var (s', reply) := Reconcile(s, existing, request, subject, folding);
            var updated := Reconciled(existing, request, subject);
            && Unique(s')
            && reply == (if !Settled(existing, updated, folding) && EmailTaken(s.users, updated) then ServerError else NoContent)
            && (reply == ServerError ==> s' == s)
            && (reply == NoContent ==>
                  if Settled(existing, updated, folding) then s' == s && existing.externalId == subject
                  else updated in s'.users && |s'.users| == |s.users|)
  {
    hide Normalized, Trim, EmailTaken;
    var updated := Reconciled(existing, request, subject);
    assert existing in s.users && existing.id == updated.id;
    UpdatedRow(s.users, updated);
    if !EmailTaken(s.users, updated) {
      UpdatedUnique(s, updated);
      UpdatedEmails(s.users, updated);
    }
  }

  lemma CreatedUnique(s: State, user: User)
    requires Unique(s) && user.id == s.nextId && forall u :: u in s.users ==> u.externalId != user.externalId
    requires forall u :: u in s.users ==> u.email != user.email
    ensures Unique(State(s.users + [user], s.nextId + 1))
  {
  }

  /** No row found by a lower-case lookup means that no row holds the email itself. */
  lemma NoneFoundByEmail(users: seq<User>, email: string, folding: Folding)
    requires WithEmail(users, email, folding) == []
    ensures forall u :: u in users ==> u.email != email
  {
    hide WithEmail;
    forall u | u in users ensures u.email != email {
      assert u !in WithEmail(users, email, folding);
    }
  }

  /** The rows found by identity: none, or the one that holds it. */
  lemma FoundByIdentity(s: State, subject: string)
    requires Unique(s)
    ensures var found := WithExternalId(s.users, subject);
            && |found| <= 1
            && (|found| == 1 ==> found[0] in s.users && found[0].externalId == subject)
            && (|found| == 1 ==> forall u :: u in s.users && u.id != found[0].id ==> u.externalId != subject)
            && (|found| == 0 ==> forall u :: u in s.users ==> u.externalId != subject)
  {
    hide WithExternalId;
    var found := WithExternalId(s.users, subject);
    HoldersUnique(s.users, subject);
    assert forall u :: u in s.users && u.externalId == subject ==> u in found;
    if |found| == 1 {
      assert found == [found[0]] && found[0] in found;
      assert forall u :: u in found ==> u == found[0];
    }
  }

  /** Identities stay unique, and a successful call leaves exactly one row with the identity. */
  lemma SavedKeepsUnique(s: State, request: SaveRequest, identity: Option<string>, folding: Folding)
    requires Unique(s)
    ensures Unique(Saved(s, request, identity, folding).0)
  {
    hide Trim, Normalized, WithEmail, WithExternalId, Unique, Reconcile;
    if Trim(request.email) != "" && identity.Some? {
      var subject := identity.value;
      FoundByIdentity(s, subject);
      var byExternalId := WithExternalId(s.users, subject);
      if |byExternalId| == 1 {
        ReconcileHolds(s, byExternalId[0], request, subject, folding);
      } else {
        var byEmail := WithEmail(s.users, Trim(request.email), folding);
        if |byEmail| == 1 {
          assert byEmail[0] in byEmail;
          ReconcileHolds(s, byEmail[0], request, subject, folding);
        } else if |byEmail| == 0 {
          NoneFoundByEmail(s.users, Trim(request.email), folding);
          CreatedUnique(s, User(s.nextId, Normalized(request.name, ""), Normalized(request.organization, ""), subject,
                                Trim(request.email)));
        }
      }
    }
  }

  /**
    Of rows that are unique, a call fails exactly when the caller's row would change and another
    row holds the email, or when no row is the caller's and several have the email but for case.
   */
  lemma FailsExactly(s: State, request: SaveRequest, identity: Option<string>, folding: Folding)
    requires Unique(s)
    ensures Saved(s, request, identity, folding).1 == ServerError <==>
            && Trim(request.email) != "" && identity.Some?
            && var mine := WithExternalId(s.users, identity.value);
               if mine != [] then
                 !Settled(mine[0], Reconciled(mine[0], request, identity.value), folding) &&
                 EmailTaken(s.users, Reconciled(mine[0], request, identity.value))
               else |WithEmail(s.users, Trim(request.email), folding)| > 1
  {
    hide Trim, Normalized, WithEmail, WithExternalId, Unique, Reconcile, Settled, EmailTaken, Reconciled;
    if Trim(request.email) != "" && identity.Some? {
      var subject := identity.value;
      FoundByIdentity(s, subject);
      var byExternalId := WithExternalId(s.users, subject);
      if |byExternalId| == 1 {
        ReconcileHolds(s, byExternalId[0], request, subject, folding);
      } else {
        var byEmail := WithEmail(s.users, Trim(request.email), folding);
        if |byEmail| == 1 {
          assert byEmail[0] in byEmail;
          ReconcileHolds(s, byEmail[0], request, subject, folding);
          OnlyEmail(s, byEmail[0], request, subject, folding);
        }
      }
    }
  }

  /** The only row found by email can take the email: no other row holds it. */
  lemma OnlyEmail(s: State, found: User, request: SaveRequest, subject: string, folding: Folding)
    requires WithEmail(s.users, Trim(request.email), folding) == [found]
    ensures !EmailTaken(s.users, Reconciled(found, request, subject))
  {
    hide WithEmail, Trim, Normalized;
    forall u | u in s.users && u.email == Trim(request.email) ensures u.id == found.id {
      assert u in WithEmail(s.users, Trim(request.email), folding);
    }
  }

  // ----- Saying the same thing twice -----

  /** The row already says what the request asks for. */
  ghost predicate Holds(s: State, user: User, request: SaveRequest, subject: string, folding: Folding)
  {
    && Unique(s) && user in s.users && user.externalId == subject
    && Settled(user, Reconciled(user, request, subject), folding)
  }

  lemma NormalizedTwice(value: Option<string>, existing: string)
    ensures Normalized(value, Normalized(value, existing)) == Normalized(value, existing)
  {
    hide Trim;
  }

  lemma HeldIsFixed(s: State, user: User, request: SaveRequest, subject: string, folding: Folding)
    requires Holds(s, user, request, subject, folding) && Trim(request.email) != ""
    ensures Saved(s, request, Some(subject), folding) == (s, NoContent)
  {
    hide Trim, Normalized, WithEmail, Settled, WithExternalId, Unique;
    UniqueParts(s);
    OnlyHolder(s.users, user);
  }

  lemma UniqueParts(s: State)
    requires Unique(s)
    ensures UniqueIds(s) && UniqueExternalIds(s.users) && UniqueEmails(s.users)
  {
  }

  lemma ReconcileSettles(s: State, existing: User, request: SaveRequest, subject: string, folding: Folding)
    requires Unique(s) && existing in s.users
    requires forall u :: u in s.users && u.id != existing.id ==> u.externalId != subject
    requires forall e :: folding.sameFold(e, e)
    requires Reconcile(s, existing, request, subject, folding).1 == NoContent
    ensures var s' := Reconcile(s, existing, request, subject, folding).0;
            var updated := Reconciled(existing, request, subject);
            Holds(s', if Settled(existing, updated, folding) then existing else updated, request, subject, folding)
  {
    hide Trim, Normalized, Unique, Reconcile;
    ReconcileHolds(s, existing, request, subject, folding);
    NormalizedTwice(request.name, existing.name);
    NormalizedTwice(request.organization, existing.organization);
  }

  lemma CreatedHolds(s: State, request: SaveRequest, subject: string, folding: Folding)
    requires Unique(s) && forall u :: u in s.users ==> u.externalId != subject
    requires forall u :: u in s.users ==> u.email != Trim(request.email)
    requires forall e :: folding.sameFold(e, e)
    ensures var user := User(s.nextId, Normalized(request.name, ""), Normalized(request.organization, ""), subject,
                             Trim(request.email));
            Holds(State(s.users + [user], s.nextId + 1), user, request, subject, folding)
  {
    hide Trim, Normalized, Unique;
    var user := User(s.nextId, Normalized(request.name, ""), Normalized(request.organization, ""), subject,
                     Trim(request.email));
    CreatedUnique(s, user);
    NormalizedTwice(request.name, "");
    NormalizedTwice(request.organization, "");
  }

  /** Repeating a successful call changes nothing and succeeds. */
  lemma SavingTwice(s: State, request: SaveRequest, identity: Option<string>, folding: Folding)
    requires Unique(s) && (forall e :: folding.sameFold(e, e))
    requires var reply := Saved(s, request, identity, folding).1; reply.NoContent? || reply.Created?
    ensures var s' := Saved(s, request, identity, folding).0;
            Saved(s', request, identity, folding) == (s', NoContent)
  {
    hide Trim, Normalized, WithEmail, WithExternalId, Unique, Reconcile, Holds, Settled, Reconciled;
    var subject := identity.value;
    var s' := Saved(s, request, identity, folding).0;
    FoundByIdentity(s, subject);
    var byExternalId := WithExternalId(s.users, subject);
    var byEmail := WithEmail(s.users, Trim(request.email), folding);
    if |byExternalId| == 1 {
      ReconcileHolds(s, byExternalId[0], request, subject, folding);
      Settles(s, byExternalId[0], request, subject, folding);
    } else if |byEmail| == 1 {
      assert byEmail[0] in byEmail;
      ReconcileHolds(s, byEmail[0], request, subject, folding);
      Settles(s, byEmail[0], request, subject, folding);
    } else {
      NoneFoundByEmail(s.users, Trim(request.email), folding);
      CreatedHolds(s, request, subject, folding);
      var user := User(s.nextId, Normalized(request.name, ""), Normalized(request.organization, ""), subject,
                       Trim(request.email));
      HeldIsFixed(s', user, request, subject, folding);
    }
  }

  lemma Settles(s: State, existing: User, request: SaveRequest, subject: string, folding: Folding)
    requires Unique(s) && existing in s.users && Trim(request.email) != ""
    requires forall u :: u in s.users && u.id != existing.id ==> u.externalId != subject
    requires forall e :: folding.sameFold(e, e)
    requires Reconcile(s, existing, request, subject, folding).1 == NoContent
    ensures var s' := Reconcile(s, existing, request, subject, folding).0;
            Saved(s', request, Some(subject), folding) == (s', NoContent)
  {
    hide Trim, Normalized, Unique, Holds, Settled, Reconcile, Reconciled, Saved;
    ReconcileSettles(s, existing, request, subject, folding);
    var updated := Reconciled(existing, request, subject);
    HeldIsFixed(Reconcile(s, existing, request, subject, folding).0,
                if Settled(existing, updated, folding) then existing else updated, request, subject, folding);
  }

  // ----- The source's steps -----

  class UserStore {
    var users: seq<User>
    var nextId: int
    const folding: Folding

    ghost function Contents(): State
      reads this
    {
      State(users, nextId)
    }

    constructor (folding: Folding)
      ensures users == [] && nextId == 1 && this.folding == folding
    {
      users, nextId, this.folding := [], 1, folding;
    }

    /** The query and the loop that scans its rows. */
    method GetUsersByExternalId(externalId: string) returns (found: seq<User>)
      ensures found == WithExternalId(users, externalId)
    {
      hide WithExternalId;
      found := [];
      assert users[0..] == users;
      NobodyElse([], externalId);
      for i := 0 to |users|
        invariant found + WithExternalId(users[i..], externalId) == WithExternalId(users, externalId)
      {
        NextHolder(found, users, externalId, i);
        if users[i].externalId == externalId {
          found := found + [users[i]];
        }
      }
      assert users[|users|..] == [];
    }

    method GetUsersByEmail(email: string) returns (found: seq<User>)
      ensures found == WithEmail(users, email, folding)
    {
      hide WithEmail;
      found := [];
      assert users[0..] == users;
      NoEmail(email, folding);
      for i := 0 to |users|
        invariant found + WithEmail(users[i..], email, folding) == WithEmail(users, email, folding)
      {
        NextEmail(found, users, email, folding, i);
        if folding.lower(users[i].email) == folding.lower(email) {
          found := found + [users[i]];
        }
      }
      assert users[|users|..] == [];
    }

    /** The unique index on emails refuses a second row. */
    method CreateUser(user: User) returns (id: Option<int>)
      modifies this
      ensures id == if exists u :: u in old(users) && u.email == user.email then None else Some(old(nextId))
      ensures Contents() == if id.Some? then State(old(users) + [user.(id := id.value)], old(nextId) + 1)
                            else old(Contents())
    {
      if exists u :: u in users && u.email == user.email {
        return None;
      }
      id := Some(nextId);
      users := users + [user.(id := nextId)];
      nextId := nextId + 1;
    }

    /** Rolled back unless exactly one row was hit, and refused when another row holds the email. */
    method UpdateUser(user: User) returns (ok: bool)
      modifies this`users
      ensures ok <==> Updated(old(users), user).1 == 1 && !EmailTaken(old(users), user)
      ensures users == if ok then Updated(old(users), user).0 else old(users)
    {
      hide Updated, EmailTaken;
      var before := users;
      if EmailTaken(before, user) {
        return false;
      }
      var rows, hits := [], 0;
      assert before[..0] == [];
      NoneUpdated(user);
      for i := 0 to |before|
        invariant users == before
        invariant rows == Updated(before[..i], user).0 && hits == Updated(before[..i], user).1
      {
        UpdatedSnoc(before, user, i);
        if before[i].id == user.id {
          rows := rows + [user];
          hits := hits + 1;
        } else {
          rows := rows + [before[i]];
        }
      }
      assert before[..|before|] == before;
      if hits != 1 {
        return false;
      }
      users := rows;
      return true;
    }

    method ReconcileUser(existing: User, request: SaveRequest, subject: string) returns (ok: bool)
      modifies this`users
      ensures Contents() == Reconcile(old(Contents()), existing, request, subject, folding).0
      ensures Reconcile(old(Contents()), existing, request, subject, folding).1 == if ok then NoContent else ServerError
    {
      hide Updated, EmailTaken;
      var updated := existing.(
        name := Normalized(request.name, existing.name),
        organization := Normalized(request.organization, existing.organization),
        externalId := subject,
        email := Trim(request.email));
      if updated.name == existing.name && updated.organization == existing.organization &&
         updated.externalId == existing.externalId && folding.sameFold(updated.email, existing.email) {
        return true;
      }
      ok := UpdateUser(updated);
    }

    method SaveUser(request: SaveRequest, identity: Option<string>) returns (reply: Reply)
      modifies this
      ensures (Contents(), reply) == Saved(old(Contents()), request, identity, folding)
    {
      hide Updated, Trim, Normalized, Reconcile, WithExternalId, WithEmail;
      var email := Trim(request.email);
      if email == "" {
        return BadRequest;
      }
      if identity.None? {
        return BadRequest;
      }
      var subject := identity.value;
      var byExternalId := GetUsersByExternalId(subject);
      if |byExternalId| > 1 {
        return ServerError;
      }
      if |byExternalId| == 1 {
        var ok := ReconcileUser(byExternalId[0], request, subject);
        return if ok then NoContent else ServerError;
      }
      var byEmail := GetUsersByEmail(email);
      if |byEmail| > 1 {
        return ServerError;
      }
      if |byEmail| == 1 {
        var ok := ReconcileUser(byEmail[0], request, subject);
        return if ok then NoContent else ServerError;
      }
      NoneFoundByEmail(users, email, folding);
      var user := User(0, Normalized(request.name, ""), Normalized(request.organization, ""), subject, email);
      var id := CreateUser(user);
      if id.None? {
        return ServerError;
      }
      return Created(user.(id := id.value));
    }

    /** Identities stay unique through every sequence of calls. */
    method SaveAll(requests: seq<(SaveRequest, Option<string>)>) returns (replies: seq<Reply>)
      requires Unique(Contents())
      modifies this
      ensures Unique(Contents()) && |replies| == |requests|
    {
      hide Unique, Saved;
      replies := [];
      for i := 0 to |requests|
        invariant Unique(Contents()) && |replies| == i
      {
        SavedKeepsUnique(Contents(), requests[i].0, requests[i].1, folding);
        var reply := SaveUser(requests[i].0, requests[i].1);
        replies := replies + [reply];
      }
    }
  }

  lemma NextHolder(found: seq<User>, users: seq<User>, externalId: string, i: nat)
    requires i < |users|
    ensures found + WithExternalId(users[i..], externalId) ==
            (if users[i].externalId == externalId then found + [users[i]] else found) + WithExternalId(users[i + 1..], externalId)
  {
    assert users[i..][1..] == users[i + 1..];
  }

  lemma NextEmail(found: seq<User>, users: seq<User>, email: string, folding: Folding, i: nat)
    requires i < |users|
    ensures found + WithEmail(users[i..], email, folding) ==
            (if folding.lower(users[i].email) == folding.lower(email) then found + [users[i]] else found) +
            WithEmail(users[i + 1..], email, folding)
  {
    assert users[i..][1..] == users[i + 1..];
  }

  lemma NoEmail(email: string, folding: Folding)
    ensures WithEmail([], email, folding) == []
  {
  }

  lemma NoneUpdated(user: User)
    ensures Updated([], user) == ([], 0)
  {
  }

  lemma UpdatedSnoc(users: seq<User>, user: User, i: nat)
    requires i < |users|
    ensures Updated(users[..i + 1], user).0 ==
            Updated(users[..i], user).0 + [if users[i].id == user.id then user else users[i]]
    ensures Updated(users[..i + 1], user).1 == Updated(users[..i], user).1 + if users[i].id == user.id then 1 else 0
  {
    hide Updated;
    var front, last := users[..i], users[i];
    assert users[..i + 1] == front + [last];
    HitsAppend(front, last, user);
    var a, b := Updated(front + [last], user).0, Updated(front, user).0 + [if last.id == user.id then user else last];
    forall k | 0 <= k <= i ensures a[k] == b[k] {
      assert (front + [last])[k] == if k < i then front[k] else last;
    }
  }

  lemma {:induction false} HitsAppend(users: seq<User>, last: User, user: User)
    ensures Updated(users + [last], user).1 == Updated(users, user).1 + if last.id == user.id then 1 else 0
    decreases |users|
  {
    if users == [] {
      assert users + [last] == [last] && [last][1..] == [];
    } else {
      assert (users + [last])[1..] == users[1..] + [last];
      HitsAppend(users[1..], last, user);
    }
  }
}
