/**
  Whose row a call to SaveUser writes, and what the row then holds, said of the strings and the
  rows alone (internal/users/manager.go). The call itself is in Users.dfy.
 */
module SavedUsers {
  import opened Users
  import opened Wrappers

  // ----- Trimming -----

  /** The code points with the Unicode property White_Space. */
  const SPACES: seq<char> := [
    '\U{9}', '\U{A}', '\U{B}', '\U{C}', '\U{D}', '\U{20}', '\U{85}', '\U{A0}', '\U{1680}', '\U{2000}', '\U{2001}',
    '\U{2002}', '\U{2003}', '\U{2004}', '\U{2005}', '\U{2006}', '\U{2007}', '\U{2008}', '\U{2009}', '\U{200A}',
    '\U{2028}', '\U{2029}', '\U{202F}', '\U{205F}', '\U{3000}']

  lemma SpacesListed(c: char)
    ensures IsSpace(c) <==> c in SPACES
  {
    assert forall i :: 0 <= i < |SPACES| ==> IsSpace(SPACES[i]);
    if IsSpace(c) {
      var i := if c <= '\r' then c as int - 9 else if c == ' ' then 5 else if c == '\U{85}' then 6
               else if c == '\U{A0}' then 7 else if c == '\U{1680}' then 8 else if c <= '\U{200A}' then c as int - 0x2000 + 9
               else if c <= '\U{2029}' then c as int - 0x2028 + 20 else if c == '\U{202F}' then 22
               else if c == '\U{205F}' then 23 else 24;
      assert SPACES[i] == c;
    }
  }

  ghost predicate Blank(s: string) { forall c :: c in s ==> c in SPACES }

  /** t is what is left of s between the spaces at both ends. */
  ghost predicate Strips(s: string, t: string)
  {
    && (exists a, b :: Blank(a) && Blank(b) && s == a + t + b)
    && (t != "" ==> t[0] !in SPACES && t[|t| - 1] !in SPACES)
  }

  lemma {:induction false} TrimStrips(s: string)
    ensures Strips(s, Trim(s))
    decreases |s|
  {
    hide IsSpace, SPACES, Strips;
    forall c ensures IsSpace(c) <==> c in SPACES { SpacesListed(c); }
    if s == "" {
      StripsItself(s);
    } else if IsSpace(s[0]) {
      TrimStrips(s[1..]);
      SpaceBefore(s, Trim(s));
    } else if IsSpace(s[|s| - 1]) {
      TrimStrips(s[..|s| - 1]);
      SpaceAfter(s, Trim(s));
    } else {
      StripsItself(s);
    }
  }

  lemma StripsItself(s: string)
    requires s != "" ==> s[0] !in SPACES && s[|s| - 1] !in SPACES
    ensures Strips(s, s)
  {
    hide SPACES;
    var none: string := "";
    assert Blank(none) && s == none + s + none;
  }

  lemma SpaceBefore(s: string, t: string)
    requires s != "" && s[0] in SPACES && Strips(s[1..], t)
    ensures Strips(s, t)
  {
    hide SPACES;
    var a, b :| Blank(a) && Blank(b) && s[1..] == a + t + b;
    assert Blank([s[0]] + a) && s == ([s[0]] + a) + t + b;
  }

  lemma SpaceAfter(s: string, t: string)
    requires s != "" && s[|s| - 1] in SPACES && Strips(s[..|s| - 1], t)
    ensures Strips(s, t)
  {
    hide SPACES;
    var last := s[|s| - 1];
    var a, b :| Blank(a) && Blank(b) && s[..|s| - 1] == a + t + b;
    assert Blank(b + [last]) && s == a + t + (b + [last]);
  }

  /** There is one way to strip a string. */
  lemma StripsOnce(s: string, t: string, u: string)
    requires Strips(s, t) && Strips(s, u)
    ensures t == u
  {
    hide SPACES;
    var a, b :| Blank(a) && Blank(b) && s == a + t + b;
    var c, d :| Blank(c) && Blank(d) && s == c + u + d;
    if u != "" { MiddleIn(s, c, u, d); }
    if t != "" { MiddleIn(s, a, t, b); }
    if t != "" && u != "" {
      SameStart(s, a, t, b, c, u, d);
      SameStart(s, c, u, d, a, t, b);
      SameEnd(s, a, t, b, c, u, d);
      SameEnd(s, c, u, d, a, t, b);
      assert t == s[|a|..|s| - |b|] && u == s[|c|..|s| - |d|];
    }
  }

  lemma MiddleIn(s: string, c: string, u: string, d: string)
    requires s == c + u + d && u != ""
    ensures u[0] in s
  {
    assert s[|c|] == u[0];
  }

  /** The first character that is no space stands in neither lead. */
  lemma SameStart(s: string, a: string, t: string, b: string, c: string, u: string, d: string)
    requires s == a + t + b && s == c + u + d && Blank(c) && t != "" && t[0] !in SPACES
    requires u != "" && u[0] !in SPACES
    ensures |c| <= |a|
  {
    hide SPACES;
    assert s[|a|] == t[0];
    assert forall i :: 0 <= i < |c| ==> s[i] == c[i] && c[i] in c;
  }

  lemma SameEnd(s: string, a: string, t: string, b: string, c: string, u: string, d: string)
    requires s == a + t + b && s == c + u + d && Blank(d) && t != "" && t[|t| - 1] !in SPACES
    ensures |d| <= |b|
  {
    hide SPACES;
    var n := |s| - |d|;
    assert s[|s| - |b| - 1] == t[|t| - 1];
    assert forall i :: 0 <= i < |d| ==> s[n + i] == d[i] && d[i] in d;
    assert forall i :: n <= i < |s| ==> s[i] == d[i - n];
  }

  // ----- The caller's row -----

  /** The row with the caller's identity, or without one the only row with the email but for its case. */
  ghost predicate IsCallers(users: seq<User>, i: nat, subject: string, email: string, folding: Folding)
  {
    && i < |users|
    && (users[i].externalId == subject ||
        ((forall u :: u in users ==> u.externalId != subject) &&
         (forall k :: 0 <= k < |users| ==> (folding.lower(users[k].email) == folding.lower(email) <==> k == i))))
  }

  /** A value that is given and not blank is stored stripped; otherwise the old one is kept. */
  ghost predicate Stores(value: Option<string>, before: string, after: string)
  {
    if value.None? || Strips(value.value, "") then after == before else Strips(value.value, after)
  }

  /** The row after the call; only when nothing but the letter case of the email differs is the email kept. */
  ghost predicate Holding(before: User, after: User, request: SaveRequest, subject: string, email: string, folding: Folding)
  {
    && after.id == before.id && after.externalId == subject
    && Stores(request.name, before.name, after.name) && Stores(request.organization, before.organization, after.organization)
    && (after.email == email || (after == before && folding.sameFold(email, before.email)))
  }

  /** The outcome of a successful call: the caller's row is written, or a new row is added for a caller without one. */
  ghost predicate CallerSaved(s: State, s': State, reply: Reply, request: SaveRequest, subject: string, email: string,
                              folding: Folding)
  {
    if exists i :: IsCallers(s.users, i, subject, email, folding) then
      && reply == NoContent && s'.nextId == s.nextId && |s'.users| == |s.users|
      && forall i :: 0 <= i < |s.users| ==>
           if IsCallers(s.users, i, subject, email, folding)
           then Holding(s.users[i], s'.users[i], request, subject, email, folding)
           else s'.users[i] == s.users[i]
    else
      && reply.Created? && s'.nextId == s.nextId + 1 && s'.users == s.users + [reply.user]
      && Holding(User(s.nextId, "", "", subject, email), reply.user, request, subject, email, folding)
  }

  lemma NormalizedStores(value: Option<string>, existing: string)
    ensures Stores(value, existing, Normalized(value, existing))
  {
    hide Trim, SPACES;
    if value.Some? {
      TrimStrips(value.value);
      if Strips(value.value, "") {
        StripsOnce(value.value, "", Trim(value.value));
      }
    }
  }

  /** The caller's row is the one with this id. */
  ghost predicate CallersRow(s: State, found: User, subject: string, email: string, folding: Folding)
  {
    && found in s.users
    && forall i: nat :: i < |s.users| ==> (IsCallers(s.users, i, subject, email, folding) <==> s.users[i].id == found.id)
  }

  lemma RowOfId(s: State, found: User, i: nat)
    requires UniqueIds(s) && found in s.users && i < |s.users| && s.users[i].id == found.id
    ensures s.users[i] == found
  {
    var j :| 0 <= j < |s.users| && s.users[j] == found;
    assert forall a, b :: 0 <= a < b < |s.users| ==> s.users[a].id != s.users[b].id;
  }

  lemma OneHolder(s: State, found: User, subject: string, email: string, folding: Folding)
    requires UniqueIds(s) && found in s.users && found.externalId == subject
    requires forall u :: u in s.users && u.id != found.id ==> u.externalId != subject
    ensures CallersRow(s, found, subject, email, folding)
  {
    forall i: nat | i < |s.users|
      ensures IsCallers(s.users, i, subject, email, folding) <==> s.users[i].id == found.id
    {
      if s.users[i].id == found.id {
        RowOfId(s, found, i);
      }
      assert s.users[i] in s.users;
    }
  }

  lemma OneEmail(s: State, found: User, subject: string, email: string, folding: Folding)
    requires UniqueIds(s) && WithEmail(s.users, email, folding) == [found]
    requires forall u :: u in s.users ==> u.externalId != subject
    ensures CallersRow(s, found, subject, email, folding)
  {
    hide WithEmail, UniqueIds;
    var list := WithEmail(s.users, email, folding);
    assert list[0] == found;
    forall k: nat | k < |s.users|
      ensures folding.lower(s.users[k].email) == folding.lower(email) <==> s.users[k].id == found.id
    {
      var u := s.users[k];
      assert u in s.users;
      assert folding.lower(u.email) == folding.lower(email) ==> u in list;
      if u.id == found.id {
        RowOfId(s, found, k);
      }
    }
    EmailsAre(s, found, subject, email, folding);
  }

  lemma EmailsAre(s: State, found: User, subject: string, email: string, folding: Folding)
    requires UniqueIds(s) && found in s.users && forall u :: u in s.users ==> u.externalId != subject
    requires forall k: nat :: k < |s.users| ==>
               (folding.lower(s.users[k].email) == folding.lower(email) <==> s.users[k].id == found.id)
    ensures CallersRow(s, found, subject, email, folding)
  {
    forall i: nat | i < |s.users|
      ensures IsCallers(s.users, i, subject, email, folding) <==> s.users[i].id == found.id
    {
      assert s.users[i] in s.users;
    }
  }

  /** A reconciliation that succeeds writes the row that it was given. */
  lemma ReconciledCaller(s: State, existing: User, request: SaveRequest, subject: string, email: string, folding: Folding)
    requires UniqueIds(s) && CallersRow(s, existing, subject, email, folding) && email == Trim(request.email)
    ensures var (s', reply) := Reconcile(s, existing, request, subject, folding);
            && (reply == ServerError || reply == NoContent) && (reply == ServerError ==> s' == s)
            && (reply == NoContent ==> CallerSaved(s, s', reply, request, subject, email, folding))
  {
    hide Trim, Normalized, Updated, EmailTaken, Stores, UniqueIds, IsCallers;
    NormalizedStores(request.name, existing.name);
    NormalizedStores(request.organization, existing.organization);
    var (s', reply) := Reconcile(s, existing, request, subject, folding);
    var j :| 0 <= j < |s.users| && s.users[j] == existing;
    assert IsCallers(s.users, j, subject, email, folding);
    forall i: nat | i < |s.users| && s.users[i].id == existing.id ensures s.users[i] == existing {
      RowOfId(s, existing, i);
    }
  }

  lemma NewCaller(s: State, request: SaveRequest, subject: string, email: string, folding: Folding)
    requires forall u :: u in s.users ==> u.externalId != subject
    requires WithEmail(s.users, email, folding) == [] && email == Trim(request.email)
    ensures var user := User(s.nextId, Normalized(request.name, ""), Normalized(request.organization, ""), subject, email);
            CallerSaved(s, State(s.users + [user], s.nextId + 1), Created(user), request, subject, email, folding)
  {
    hide Trim, Normalized, Stores, WithEmail;
    NormalizedStores(request.name, "");
    NormalizedStores(request.organization, "");
    forall i: nat | i < |s.users| ensures !IsCallers(s.users, i, subject, email, folding) {
      assert s.users[i] in s.users && s.users[i] !in WithEmail(s.users, email, folding);
    }
  }

  lemma UniqueIdsOf(s: State)
    requires Unique(s)
    ensures UniqueIds(s)
  {
  }

  /**
    A successful call writes exactly the caller's row: its trimmed email, its identity, and the
    name and organization that are given and not blank. An email that is blank and a caller
    without an identity are refused.
   */
  lemma SavesCaller(s: State, request: SaveRequest, identity: Option<string>, folding: Folding, email: string)
    requires Unique(s) && Strips(request.email, email)
    ensures var (s', reply) := Saved(s, request, identity, folding);
            && (reply == BadRequest <==> email == "" || identity.None?)
            && (reply == BadRequest || reply == ServerError ==> s' == s)
            && (reply != BadRequest && reply != ServerError ==>
                  CallerSaved(s, s', reply, request, identity.value, email, folding))
  {
    hide Trim, Normalized, WithExternalId, WithEmail, Unique, Reconcile, Strips, CallerSaved;
    TrimStrips(request.email);
    StripsOnce(request.email, email, Trim(request.email));
    UniqueIdsOf(s);
    if email != "" && identity.Some? {
      var subject := identity.value;
      FoundByIdentity(s, subject);
      var byExternalId, byEmail := WithExternalId(s.users, subject), WithEmail(s.users, email, folding);
      if |byExternalId| == 1 {
        ReconcileHolds(s, byExternalId[0], request, subject, folding);
        OneHolder(s, byExternalId[0], subject, email, folding);
        ReconciledCaller(s, byExternalId[0], request, subject, email, folding);
      } else if |byEmail| == 1 {
        assert byEmail[0] in byEmail;
        ReconcileHolds(s, byEmail[0], request, subject, folding);
        OneEmail(s, byEmail[0], subject, email, folding);
        ReconciledCaller(s, byEmail[0], request, subject, email, folding);
      } else if byEmail == [] {
        NewCaller(s, request, subject, email, folding);
      }
    }
  }
}
