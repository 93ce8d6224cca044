/** The database session: the four tables, each kept in insertion order,
    and the auto-increment counters that number new rows. */
module Database {
  import opened Wrappers
  import opened Query
  import opened Models

  /** The ids of the users in a table. */
  function UserIds(users: seq<User>): set<nat> {
    set u | u in users :: u.id
  }

  /** `db.query(User).filter(User.id == id).first()`. */
  function UserIndexById(users: seq<User>, id: nat): (r: Option<nat>)
    ensures r.Some? <==> id in UserIds(users)
    ensures r.Some? ==> r.value < |users| && users[r.value].id == id
  {
    var r := FirstIndex(users, (u: User) => u.id == id);
    assert r.None? ==> forall u | u in users :: u.id != id;
    r
  }

  /** `db.query(User).filter(User.email == email).first()`. */
  function UserIndexByEmail(users: seq<User>, email: string): (r: Option<nat>)
    ensures r.Some? ==> r.value < |users| && users[r.value].email == email
    ensures r.None? <==> forall u | u in users :: u.email != email
  {
    var r := FirstIndex(users, (u: User) => u.email == email);
    assert r.Some? ==> users[r.value] in users;
    r
  }

  /** `db.query(Profile).filter(Profile.user_id == userId).first()`. */
  function ProfileIndexByUser(profiles: seq<Profile>, userId: nat): (r: Option<nat>)
    ensures r.Some? ==> r.value < |profiles| && profiles[r.value].userId == userId
    ensures r.None? <==> forall p | p in profiles :: p.userId != userId
  {
    var r := FirstIndex(profiles, (p: Profile) => p.userId == userId);
    assert r.Some? ==> profiles[r.value] in profiles;
    r
  }

  /** `db.query(Resume).filter(Resume.id == id).first()`. */
  function ResumeIndexById(resumes: seq<Resume>, id: nat): (r: Option<nat>)
    ensures r.Some? ==> r.value < |resumes| && resumes[r.value].id == id
    ensures r.None? <==> forall x | x in resumes :: x.id != id
  {
    var r := FirstIndex(resumes, (x: Resume) => x.id == id);
    assert r.Some? ==> resumes[r.value] in resumes;
    r
  }

  /** Primary keys are distinct and below the next value of their counter;
      `users.email` and `profiles.user_id` are unique columns; every
      profile, resume and OTP token belongs to an existing user (the foreign
      keys, with ON DELETE CASCADE). */
  ghost predicate TablesValid(
    users: seq<User>, profiles: seq<Profile>, resumes: seq<Resume>, otpTokens: seq<OtpToken>,
    nextUserId: nat, nextProfileId: nat, nextResumeId: nat, nextOtpId: nat)
  {
    && (forall i, j :: 0 <= i < j < |users| ==> users[i].id != users[j].id && users[i].email != users[j].email)
    && (forall i :: 0 <= i < |users| ==> users[i].id < nextUserId)
    && (forall i, j :: 0 <= i < j < |profiles| ==> profiles[i].id != profiles[j].id && profiles[i].userId != profiles[j].userId)
    && (forall i :: 0 <= i < |profiles| ==> profiles[i].id < nextProfileId && profiles[i].userId in UserIds(users))
    && (forall i, j :: 0 <= i < j < |resumes| ==> resumes[i].id != resumes[j].id)
    && (forall i :: 0 <= i < |resumes| ==> resumes[i].id < nextResumeId && resumes[i].userId in UserIds(users))
    && (forall i, j :: 0 <= i < j < |otpTokens| ==> otpTokens[i].id != otpTokens[j].id)
    && (forall i :: 0 <= i < |otpTokens| ==> otpTokens[i].id < nextOtpId && otpTokens[i].userId in UserIds(users))
  }

  /** Rewriting a row without changing its id keeps the set of ids. */
  lemma UserIdsUpdate(users: seq<User>, i: nat, u: User)
    requires i < |users| && u.id == users[i].id
    ensures UserIds(users[i := u]) == UserIds(users)
  {
    var updated := users[i := u];
    forall x | x in UserIds(users) ensures x in UserIds(updated) {
      var k :| 0 <= k < |users| && users[k].id == x;
      assert updated[k].id == x;
    }
    forall x | x in UserIds(updated) ensures x in UserIds(users) {
      var k :| 0 <= k < |updated| && updated[k].id == x;
      assert users[k].id == x;
    }
  }

  /** Appending a row adds exactly its id. */
  lemma UserIdsAppend(users: seq<User>, u: User)
    ensures UserIds(users + [u]) == UserIds(users) + {u.id}
  {
    var appended := users + [u];
    forall x | x in UserIds(users) ensures x in UserIds(appended) {
      var k :| 0 <= k < |users| && users[k].id == x;
      assert appended[k].id == x;
    }
    assert appended[|users|] == u;
  }

  /** Removing row `i` from a table of resumes with distinct ids keeps
      the ids distinct and removes exactly the rows with that id. */
  lemma RemoveUniqueId(resumes: seq<Resume>, i: nat)
    requires i < |resumes|
    requires forall a, b :: 0 <= a < b < |resumes| ==> resumes[a].id != resumes[b].id
    ensures var kept := RemoveAt(resumes, i);
            && (forall a, b :: 0 <= a < b < |kept| ==> kept[a].id != kept[b].id)
            && (forall x :: x in kept <==> x in resumes && x.id != resumes[i].id)
  {
    var kept := RemoveAt(resumes, i);
    forall x | x in resumes && x.id != resumes[i].id
      ensures x in kept
    {
      var k :| 0 <= k < |resumes| && resumes[k] == x;
      if k < i {
        assert kept[k] == x;
      } else {
        assert kept[k - 1] == x;
      }
    }
  }

  /** Removing row `i` from a table of users with distinct ids and e-mails
      keeps them distinct and removes exactly the id of that row. */
  lemma RemoveUserRow(users: seq<User>, i: nat)
    requires i < |users|
    requires forall a, b :: 0 <= a < b < |users| ==> users[a].id != users[b].id && users[a].email != users[b].email
    ensures var kept := RemoveAt(users, i);
            && (forall a, b :: 0 <= a < b < |kept| ==> kept[a].id != kept[b].id && kept[a].email != kept[b].email)
            && (forall a :: 0 <= a < |kept| ==> kept[a] in users)
            && UserIds(kept) == UserIds(users) - {users[i].id}
  {
    var kept := RemoveAt(users, i);
    forall x | x in UserIds(users) - {users[i].id}
      ensures x in UserIds(kept)
    {
      var k :| 0 <= k < |users| && users[k].id == x;
      if k < i {
        assert kept[k].id == x;
      } else {
        assert k != i;
        assert kept[k - 1].id == x;
      }
    }
    forall x | x in UserIds(kept)
      ensures x in UserIds(users) - {users[i].id}
    {
      var k :| 0 <= k < |kept| && kept[k].id == x;
      var k' := if k < i then k else k + 1;
      assert kept[k] == users[k'];
    }
  }

  /** The rows that do not belong to user `id`. */
  function NotProfileOf(id: nat): Profile -> bool {
    (p: Profile) => p.userId != id
  }

  function NotResumeOf(id: nat): Resume -> bool {
    (x: Resume) => x.userId != id
  }

  function NotTokenOf(id: nat): OtpToken -> bool {
    (t: OtpToken) => t.userId != id
  }

  class Database {
    var users: seq<User>
    var profiles: seq<Profile>
    var resumes: seq<Resume>
    var otpTokens: seq<OtpToken>
    var nextUserId: nat
    var nextProfileId: nat
    var nextResumeId: nat
    var nextOtpId: nat

    ghost predicate Valid()
      reads this
    {
      TablesValid(users, profiles, resumes, otpTokens, nextUserId, nextProfileId, nextResumeId, nextOtpId)
    }

    /** An empty database; the counters start at 1 like SERIAL columns. */
    constructor ()
      ensures Valid()
      ensures users == [] && profiles == [] && resumes == [] && otpTokens == []
    {
      users := [];
      profiles := [];
      resumes := [];
      otpTokens := [];
      nextUserId := 1;
      nextProfileId := 1;
      nextResumeId := 1;
      nextOtpId := 1;
    }

    /** Writes row `i` of `users` back after an in-place update that keeps
        its id and email (`db.commit()` on a loaded user). */
    method SetUser(i: nat, u: User)
      requires Valid() && i < |users| && u.id == users[i].id && u.email == users[i].email
      modifies this
      ensures Valid()
      ensures users == old(users)[i := u]
      ensures OnlyUsersChanged(this)
    {
      UserIdsUpdate(users, i, u);
      users := users[i := u];
    }

    /** Inserts a user under the next id; its e-mail must be new. */
    method AddUser(u: User)
      requires Valid() && u.id == nextUserId
      requires forall v | v in users :: v.email != u.email
      modifies this
      ensures Valid()
      ensures users == old(users) + [u] && nextUserId == old(nextUserId) + 1
      ensures profiles == old(profiles) && resumes == old(resumes) && otpTokens == old(otpTokens)
      ensures nextProfileId == old(nextProfileId) && nextResumeId == old(nextResumeId) && nextOtpId == old(nextOtpId)
    {
      UserIdsAppend(users, u);
      forall i | 0 <= i < |users| ensures users[i].email != u.email {
        assert users[i] in users;
      }
      users := users + [u];
      nextUserId := nextUserId + 1;
    }

    /** Inserts a profile under the next id for a user that has none. */
    method AddProfile(p: Profile)
      requires Valid() && p.id == nextProfileId && p.userId in UserIds(users)
      requires forall q | q in profiles :: q.userId != p.userId
      modifies this
      ensures Valid()
      ensures profiles == old(profiles) + [p] && nextProfileId == old(nextProfileId) + 1
      ensures users == old(users) && resumes == old(resumes) && otpTokens == old(otpTokens)
      ensures nextUserId == old(nextUserId) && nextResumeId == old(nextResumeId) && nextOtpId == old(nextOtpId)
    {
      forall i | 0 <= i < |profiles| ensures profiles[i].userId != p.userId {
        assert profiles[i] in profiles;
      }
      profiles := profiles + [p];
      nextProfileId := nextProfileId + 1;
    }

    /** `db.delete(user)` of row `i`, cascading to the user's profile,
        resumes and OTP tokens; every other row stays, in order. */
    method RemoveUser(i: nat)
      requires Valid() && i < |users|
      modifies this
      ensures Valid()
      ensures users == RemoveAt(old(users), i)
      ensures UserIds(users) == UserIds(old(users)) - {old(users)[i].id}
      ensures profiles == Filter(old(profiles), NotProfileOf(old(users)[i].id))
      ensures resumes == Filter(old(resumes), NotResumeOf(old(users)[i].id))
      ensures otpTokens == Filter(old(otpTokens), NotTokenOf(old(users)[i].id))
      ensures nextUserId == old(nextUserId) && nextProfileId == old(nextProfileId)
      ensures nextResumeId == old(nextResumeId) && nextOtpId == old(nextOtpId)
    {
      var id := users[i].id;
      RemoveUserRow(users, i);
      var ps := Filter(profiles, NotProfileOf(id));
      var rs := Filter(resumes, NotResumeOf(id));
      var ts := Filter(otpTokens, NotTokenOf(id));
      FilterPairwise(profiles, NotProfileOf(id), (a: Profile, b: Profile) => a.id != b.id && a.userId != b.userId);
      FilterPairwise(resumes, NotResumeOf(id), (a: Resume, b: Resume) => a.id != b.id);
      FilterPairwise(otpTokens, NotTokenOf(id), (a: OtpToken, b: OtpToken) => a.id != b.id);
      forall a | 0 <= a < |ps| ensures ps[a].id < nextProfileId && ps[a].userId in UserIds(users) - {id} {
        assert ps[a] in profiles;
      }
      forall a | 0 <= a < |rs| ensures rs[a].id < nextResumeId && rs[a].userId in UserIds(users) - {id} {
        assert rs[a] in resumes;
      }
      forall a | 0 <= a < |ts| ensures ts[a].id < nextOtpId && ts[a].userId in UserIds(users) - {id} {
        assert ts[a] in otpTokens;
      }
      users := RemoveAt(users, i);
      profiles := ps;
      resumes := rs;
      otpTokens := ts;
    }

    /** Writes row `i` of `profiles` back after an in-place update that
        keeps its id and owner. */
    method SetProfile(i: nat, p: Profile)
      requires Valid() && i < |profiles| && p.id == profiles[i].id && p.userId == profiles[i].userId
      modifies this
      ensures Valid()
      ensures profiles == old(profiles)[i := p]
      ensures OnlyProfilesChanged(this)
    {
      profiles := profiles[i := p];
    }

    /** Inserts a resume under the next id for an existing user. */
    method AddResume(x: Resume)
      requires Valid() && x.id == nextResumeId && x.userId in UserIds(users)
      modifies this
      ensures Valid()
      ensures resumes == old(resumes) + [x] && nextResumeId == old(nextResumeId) + 1
      ensures users == old(users) && profiles == old(profiles) && otpTokens == old(otpTokens)
      ensures nextUserId == old(nextUserId) && nextProfileId == old(nextProfileId) && nextOtpId == old(nextOtpId)
    {
      resumes := resumes + [x];
      nextResumeId := nextResumeId + 1;
    }

    /** Writes row `i` of `resumes` back after an in-place update that
        keeps its id and owner. */
    method SetResume(i: nat, x: Resume)
      requires Valid() && i < |resumes| && x.id == resumes[i].id && x.userId == resumes[i].userId
      modifies this
      ensures Valid()
      ensures resumes == old(resumes)[i := x]
      ensures OnlyResumesChanged(this)
    {
      resumes := resumes[i := x];
    }

    /** `db.delete(resume)` of row `i`: every other row stays, in order. */
    method RemoveResume(i: nat)
      requires Valid() && i < |resumes|
      modifies this
      ensures Valid()
      ensures resumes == RemoveAt(old(resumes), i)
      ensures forall x :: x in resumes <==> x in old(resumes) && x.id != old(resumes)[i].id
      ensures OnlyResumesChanged(this)
    {
      RemoveUniqueId(resumes, i);
      resumes := RemoveAt(resumes, i);
    }
  }

  /** Every table but `users`, and every counter, is as it was. */
  twostate predicate OnlyUsersChanged(db: Database)
    reads db
  {
    && db.profiles == old(db.profiles) && db.resumes == old(db.resumes) && db.otpTokens == old(db.otpTokens)
    && db.nextUserId == old(db.nextUserId) && db.nextProfileId == old(db.nextProfileId)
    && db.nextResumeId == old(db.nextResumeId) && db.nextOtpId == old(db.nextOtpId)
  }

  /** Every table but `profiles`, and every counter, is as it was. */
  twostate predicate OnlyProfilesChanged(db: Database)
    reads db
  {
    && db.users == old(db.users) && db.resumes == old(db.resumes) && db.otpTokens == old(db.otpTokens)
    && db.nextUserId == old(db.nextUserId) && db.nextProfileId == old(db.nextProfileId)
    && db.nextResumeId == old(db.nextResumeId) && db.nextOtpId == old(db.nextOtpId)
  }

  /** Every table but `resumes`, and every counter, is as it was. */
  twostate predicate OnlyResumesChanged(db: Database)
    reads db
  {
    && db.users == old(db.users) && db.profiles == old(db.profiles) && db.otpTokens == old(db.otpTokens)
    && db.nextUserId == old(db.nextUserId) && db.nextProfileId == old(db.nextProfileId)
    && db.nextResumeId == old(db.nextResumeId) && db.nextOtpId == old(db.nextOtpId)
  }
}
