/** The signup, verification and password-reset endpoints of main.py, acting on the table of
    pending verifications, the table of password resets, the list of accounts and the table of
    profiles. Time is an integer number of seconds, and the random code of `secrets.token_hex(3)`
    is a parameter. */
module Auth {
  import opened Wrappers
  import opened Text

  /** `timedelta(minutes=5)`. */
  const CODE_LIFETIME: int := 300

  /** A row of `email_verifications`. */
  datatype Pending = Pending(name: string, password: string, code: string, expiresAt: int)

  /** A row of `password_resets`. */
  datatype ResetEntry = ResetEntry(code: string, expiresAt: int)

  /** An account as the admin API lists it. */
  datatype User = User(id: nat, email: string, password: string, confirmed: bool)

  /** A row of `user_profiles`, keyed by the account id. */
  datatype Profile = Profile(email: string, name: string)

  /** Every table the endpoints read or write. `nextId` is the id the next created account gets. */
  datatype Tables = Tables(
    verifications: map<string, Pending>,
    resets: map<string, ResetEntry>,
    users: seq<User>,
    profiles: map<nat, Profile>,
    nextId: nat)

  /** The JSON an endpoint returns, or the HTTPException it raises. */
  datatype Outcome = Done(status: string) | Failed(code: int, detail: string)

  datatype Step = Step(tables: Tables, outcome: Outcome)

  /** get_user_by_email: the first account, in list order, whose email equals `email` exactly. */
  function FindUser(users: seq<User>, email: string): (r: Option<User>)
    ensures r.None? <==> forall j :: 0 <= j < |users| ==> users[j].email != email
    ensures r.Some? ==>
      exists i :: 0 <= i < |users| && users[i] == r.value && users[i].email == email
        && forall j :: 0 <= j < i ==> users[j].email != email
  {
    if users == [] then None
    else if users[0].email == email then Some(users[0])
    else
      var r := FindUser(users[1..], email);
      assert forall j :: 1 <= j < |users| ==> users[j] == users[1..][j - 1];
      r
  }

  /** `update_user_by_id(id, {"email_confirm": True})`. */
  function ConfirmEmail(users: seq<User>, id: nat): (r: seq<User>)
    ensures |r| == |users|
    ensures forall i :: 0 <= i < |r| ==>
      && r[i].id == users[i].id && r[i].email == users[i].email && r[i].password == users[i].password
      && (r[i].confirmed <==> users[i].confirmed || users[i].id == id)
  {
    seq(|users|, i requires 0 <= i < |users| => if users[i].id == id then users[i].(confirmed := true) else users[i])
  }

  /** `update_user_by_id(id, {"password": ..., "email_confirmed_at": now})`. */
  function SetPassword(users: seq<User>, id: nat, password: string): (r: seq<User>)
    ensures |r| == |users|
    ensures forall i :: 0 <= i < |r| ==> r[i].id == users[i].id && r[i].email == users[i].email
    ensures forall i :: 0 <= i < |r| && users[i].id == id ==> r[i].password == password && r[i].confirmed
    ensures forall i :: 0 <= i < |r| && users[i].id != id ==> r[i] == users[i]
  {
    seq(|users|, i requires 0 <= i < |users| =>
      if users[i].id == id then users[i].(password := password, confirmed := true) else users[i])
  }

  /** The tables are consistent: no two accounts share an email or an id, and every id is below
      `nextId`. */
  ghost predicate ValidTables(t: Tables)
  {
    ValidUsers(t.users, t.nextId)
  }

  /** No two accounts share an email or an id, and every id is below the next one to hand out. */
  ghost predicate ValidUsers(users: seq<User>, nextId: nat)
  {
    && (forall i, j :: 0 <= i < j < |users| ==> users[i].email != users[j].email && users[i].id != users[j].id)
    && (forall i :: 0 <= i < |users| ==> users[i].id < nextId)
  }

  // ---------------------------------------------------------------------------------------------
  // The endpoints as functions on the tables
  // ---------------------------------------------------------------------------------------------

  /** signup: upsert the pending record for the canonical email with a code valid for five minutes. */
  function SignupStep(t: Tables, email: string, name: string, password: string, code: string, now: int): Step
  {
    var key := CanonicalEmail(email);
    Step(t.(verifications := t.verifications[key := Pending(name, password, code, now + CODE_LIFETIME)]),
         Done("verification_sent"))
  }

  /** verify: the three guards in order, then delete the pending record, confirm or create the
      account, and upsert the profile. */
  function VerifyStep(t: Tables, email: string, code: string, now: int): Step
  {
    var key := CanonicalEmail(email);
    if key !in t.verifications then Step(t, Failed(400, "No verification request found"))
    else
      var rec := t.verifications[key];
      if rec.expiresAt < now then Step(t, Failed(400, "Verification code expired"))
      else if Strip(code) != rec.code then Step(t, Failed(400, "Invalid verification code"))
      else
        var pending := t.verifications - {key};
        match FindUser(t.users, key)
        case Some(u) =>
          Step(t.(verifications := pending, users := ConfirmEmail(t.users, u.id),
                  profiles := t.profiles[u.id := Profile(key, rec.name)]),
               Done("verified"))
        case None =>
          Step(t.(verifications := pending, users := t.users + [User(t.nextId, key, rec.password, true)],
                  profiles := t.profiles[t.nextId := Profile(key, rec.name)], nextId := t.nextId + 1),
               Done("verified"))
  }

  /** reset_request: 404 for an unknown email, otherwise upsert a reset valid for five minutes. */
  function ResetRequestStep(t: Tables, email: string, code: string, now: int): Step
  {
    var key := CanonicalEmail(email);
    if FindUser(t.users, key).None? then
      Step(t, Failed(404, "Email not registered with us. Please create an account."))
    else
      Step(t.(resets := t.resets[key := ResetEntry(code, now + CODE_LIFETIME)]), Done("code_sent"))
  }

  /** reset_verify: looks the reset up under `email.lower()`, not stripped, and compares the code
      as given. It writes nothing. */
  function ResetVerifyOutcome(t: Tables, email: string, code: string, now: int): Outcome
  {
    var key := Lower(email);
    if key !in t.resets then Failed(400, "No reset request found")
    else if t.resets[key].expiresAt < now then Failed(400, "Code expired")
    else if code != t.resets[key].code then Failed(400, "Invalid code")
    else Done("verified")
  }

  /** reset_confirm as written: the reset must exist and be unexpired and the account must exist;
      the code is never looked at. */
  function ResetConfirmStep(t: Tables, email: string, newPassword: string, now: int): Step
  {
    var key := CanonicalEmail(email);
    if key !in t.resets then Step(t, Failed(400, "Reset not verified"))
    else if t.resets[key].expiresAt < now then Step(t, Failed(400, "Reset expired"))
    else
      match FindUser(t.users, key)
      case None => Step(t, Failed(404, "User not found"))
      case Some(u) =>
        Step(t.(users := SetPassword(t.users, u.id, newPassword), resets := t.resets - {key}),
             Done("password_updated"))
  }

  /** reset_confirm with the check it evidently lacks: the code sent by email must be given again,
      and a wrong one is refused like in reset_verify. */
  function ResetConfirmCheckedStep(t: Tables, email: string, code: string, newPassword: string, now: int): Step
  {
    var key := CanonicalEmail(email);
    if key !in t.resets then Step(t, Failed(400, "Reset not verified"))
    else if t.resets[key].expiresAt < now then Step(t, Failed(400, "Reset expired"))
    else if Strip(code) != t.resets[key].code then Step(t, Failed(400, "Invalid code"))
    else ResetConfirmStep(t, email, newPassword, now)
  }

  // ---------------------------------------------------------------------------------------------
  // What the endpoints guarantee
  // ---------------------------------------------------------------------------------------------

  /** signup replaces whatever was pending for the email and touches nothing else. */
  lemma SignupReplacesPending(t: Tables, email: string, name: string, password: string, code: string, now: int)
    ensures var key := CanonicalEmail(email);
      var s := SignupStep(t, email, name, password, code, now).tables;
      && s.verifications.Keys == t.verifications.Keys + {key}
      && s.verifications[key] == Pending(name, password, code, now + 300)
      && (forall k :: k in t.verifications && k != key ==> s.verifications[k] == t.verifications[k])
      && s.resets == t.resets && s.users == t.users && s.profiles == t.profiles && s.nextId == t.nextId
  {
  }

  /** verify succeeds exactly when a record is pending for the canonical email, it has not expired
      (a code is still good at its expiry second) and the stripped code matches; otherwise the
      first failing guard names the error and no table changes. */
  lemma VerifyGuards(t: Tables, email: string, code: string, now: int)
    ensures var key := CanonicalEmail(email);
      var r := VerifyStep(t, email, code, now);
      && (r.outcome.Done? <==> key in t.verifications && now <= t.verifications[key].expiresAt
                               && Strip(code) == t.verifications[key].code)
      && (r.outcome.Failed? ==> r.tables == t && r.outcome.code == 400)
      && (key !in t.verifications ==> r.outcome.detail == "No verification request found")
      && (key in t.verifications && t.verifications[key].expiresAt < now ==> r.outcome.detail == "Verification code expired")
      && (key in t.verifications && now <= t.verifications[key].expiresAt && Strip(code) != t.verifications[key].code ==>
            r.outcome == Failed(400, "Invalid verification code"))
  {
  }

  /** On success the pending record is gone, the account found for the email is confirmed and
      keeps its password, and its profile carries the name given at signup. The other pending
      records and profiles stay as they were. */
  lemma VerifyConfirmsExisting(t: Tables, email: string, code: string, now: int)
    requires VerifyStep(t, email, code, now).outcome.Done?
    requires FindUser(t.users, CanonicalEmail(email)).Some?
    ensures var key := CanonicalEmail(email);
      var u := FindUser(t.users, key).value;
      var s := VerifyStep(t, email, code, now).tables;
      && key !in s.verifications
      && s.users == ConfirmEmail(t.users, u.id)
      && FindUser(s.users, key) == Some(u.(confirmed := true))
      && s.verifications == t.verifications - {key}
      && key in t.verifications && s.profiles == t.profiles[u.id := Profile(key, t.verifications[key].name)]
      && s.resets == t.resets && s.nextId == t.nextId
  {
    var key := CanonicalEmail(email);
    var u := FindUser(t.users, key).value;
    var i :| 0 <= i < |t.users| && t.users[i] == u && t.users[i].email == key
      && forall j :: 0 <= j < i ==> t.users[j].email != key;
    FindConfirmed(t.users, u.id, key, i);
  }

  /** On success with no account for the email, one is created, confirmed, with the password
      given at signup and the next id, and its profile carries the name given at signup. The other
      pending records and profiles stay as they were. */
  lemma VerifyCreatesAccount(t: Tables, email: string, code: string, now: int)
    requires VerifyStep(t, email, code, now).outcome.Done?
    requires FindUser(t.users, CanonicalEmail(email)).None?
    ensures var key := CanonicalEmail(email);
      var rec := t.verifications[key];
      var s := VerifyStep(t, email, code, now).tables;
      && key !in s.verifications
      && s.users == t.users + [User(t.nextId, key, rec.password, true)]
      && FindUser(s.users, key) == Some(User(t.nextId, key, rec.password, true))
      && s.verifications == t.verifications - {key}
      && s.profiles == t.profiles[t.nextId := Profile(key, rec.name)]
      && s.resets == t.resets && s.nextId == t.nextId + 1
  {
    var key := CanonicalEmail(email);
    FindAppended(t.users, User(t.nextId, key, t.verifications[key].password, true));
  }

  /** Confirming an account by id does not change which account an email finds, as long as the
      found account keeps its email. */
  lemma FindConfirmed(users: seq<User>, id: nat, key: string, i: nat)
    requires i < |users| && users[i].email == key && users[i].id == id
    requires forall j :: 0 <= j < i ==> users[j].email != key
    ensures FindUser(ConfirmEmail(users, id), key) == Some(users[i].(confirmed := true))
  {
    var r := ConfirmEmail(users, id);
    assert r[i].email == key;
    var f := FindUser(r, key);
    var k :| 0 <= k < |r| && r[k] == f.value && r[k].email == key && forall j :: 0 <= j < k ==> r[j].email != key;
    assert k == i;
  }

  lemma FindAppended(users: seq<User>, u: User)
    requires forall j :: 0 <= j < |users| ==> users[j].email != u.email
    ensures FindUser(users + [u], u.email) == Some(u)
  {
    var r := users + [u];
    assert r[|users|].email == u.email;
    var f := FindUser(r, u.email);
    var k :| 0 <= k < |r| && r[k] == f.value && r[k].email == u.email && forall j :: 0 <= j < k ==> r[j].email != u.email;
    assert k == |users|;
  }

  /** reset_request fails with 404, changing nothing, exactly when no account has the canonical
      email; otherwise it replaces the reset for that email and nothing else. */
  lemma ResetRequestEffects(t: Tables, email: string, code: string, now: int)
    ensures var key := CanonicalEmail(email);
      var r := ResetRequestStep(t, email, code, now);
      && (r.outcome.Failed? <==> forall j :: 0 <= j < |t.users| ==> t.users[j].email != key)
      && (r.outcome.Failed? ==> r.tables == t && r.outcome.code == 404)
      && (r.outcome.Done? ==> r.tables == t.(resets := t.resets[key := ResetEntry(code, now + 300)]))
  {
  }

  /** reset_verify accepts exactly an unexpired reset stored under the lower-cased email whose code
      equals the given one. */
  lemma ResetVerifyAccepts(t: Tables, email: string, code: string, now: int)
    ensures ResetVerifyOutcome(t, email, code, now).Done? <==>
      Lower(email) in t.resets && now <= t.resets[Lower(email)].expiresAt && code == t.resets[Lower(email)].code
  {
  }

  /** Because reset_verify does not strip the email, a request made with a trailing space is not
      found by a verify made with the same text, even with the right code ("a@x " requests a reset
      for "a@x" and then verifies "a@x "). This is about the handlers as written: the `EmailStr`
      validation of the request bodies may refuse such an address before a handler runs. */
  lemma ResetVerifyMissesPaddedEmail(t: Tables, e: string, code: string, now: int)
    requires e != [] && !IsSpace(e[0]) && !IsSpace(e[|e| - 1])
    requires forall i :: 0 <= i < |e| ==> !IsUpper(e[i])
    requires FindUser(t.users, e).Some? && e + " " !in t.resets
    ensures var s := ResetRequestStep(t, e + " ", code, now).tables;
      && e in s.resets && s.resets[e] == ResetEntry(code, now + CODE_LIFETIME)
      && ResetVerifyOutcome(s, e + " ", code, now) == Failed(400, "No reset request found")
  {
    var padded := e + " ";
    assert Lower(padded) == padded by {
      assert forall i :: 0 <= i < |padded| ==> !IsUpper(padded[i]);
      LowerNoUpper(padded);
    }
    assert CanonicalEmail(padded) == e by {
      StripTrailingSpace(e, ' ');
    }
    assert padded != e by {
      assert |padded| != |e|;
    }
  }

  /** reset_confirm as written succeeds exactly when an unexpired reset exists for the canonical
      email and an account has that email; an unknown account leaves the reset in place; success
      sets the password and deletes the reset. */
  lemma ResetConfirmEffects(t: Tables, email: string, newPassword: string, now: int)
    ensures var key := CanonicalEmail(email);
      var r := ResetConfirmStep(t, email, newPassword, now);
      && (r.outcome.Done? <==> key in t.resets && now <= t.resets[key].expiresAt && FindUser(t.users, key).Some?)
      && (r.outcome.Failed? ==> r.tables == t)
      && (key !in t.resets ==> r.outcome == Failed(400, "Reset not verified"))
      && (key in t.resets && t.resets[key].expiresAt < now ==> r.outcome == Failed(400, "Reset expired"))
      && (key in t.resets && now <= t.resets[key].expiresAt && FindUser(t.users, key).None? ==>
            r.outcome == Failed(404, "User not found"))
      && (r.outcome.Done? ==>
            && r.tables.resets == t.resets - {key}
            && r.tables.users == SetPassword(t.users, FindUser(t.users, key).value.id, newPassword)
            && r.tables.verifications == t.verifications && r.tables.profiles == t.profiles
            && r.tables.nextId == t.nextId)
  {
  }

  /** The flaw of reset_confirm: whoever knows a registered email can ask for a reset and then set
      a new password at once, without the code that was mailed to the owner. */
  lemma ResetWithoutCode(t: Tables, email: string, mailedCode: string, chosen: string, now: int)
    requires FindUser(t.users, CanonicalEmail(email)).Some?
    ensures var s := ResetRequestStep(t, email, mailedCode, now).tables;
      var r := ResetConfirmStep(s, email, chosen, now);
      && r.outcome == Done("password_updated")
      && r.tables.users == SetPassword(t.users, FindUser(t.users, CanonicalEmail(email)).value.id, chosen)
  {
  }

  /** The corrected reset_confirm changes a password only for a caller who gives the mailed code
      of an unexpired reset, and then does what reset_confirm does. */
  lemma CheckedResetNeedsCode(t: Tables, email: string, code: string, newPassword: string, now: int)
    ensures var key := CanonicalEmail(email);
      var r := ResetConfirmCheckedStep(t, email, code, newPassword, now);
      && (r.outcome.Done? <==> key in t.resets && now <= t.resets[key].expiresAt
                               && Strip(code) == t.resets[key].code && FindUser(t.users, key).Some?)
      && (r.outcome.Failed? ==> r.tables == t)
      && (r.outcome.Done? ==> r == ResetConfirmStep(t, email, newPassword, now))
  {
  }

  lemma SignupPreservesValid(t: Tables, email: string, name: string, password: string, code: string, now: int)
    requires ValidTables(t)
    ensures ValidTables(SignupStep(t, email, name, password, code, now).tables)
  {
  }

  /** Updating accounts by id keeps every email and id in place. */
  lemma UpdatesKeepKeys(users: seq<User>, id: nat, password: string)
    ensures forall i :: 0 <= i < |users| ==>
      && ConfirmEmail(users, id)[i].email == users[i].email && ConfirmEmail(users, id)[i].id == users[i].id
      && SetPassword(users, id, password)[i].email == users[i].email && SetPassword(users, id, password)[i].id == users[i].id
  {
  }

  /** Changing accounts while keeping every email and id in place keeps them consistent. */
  lemma KeysKeptValid(users: seq<User>, users': seq<User>, nextId: nat)
    requires ValidUsers(users, nextId) && |users'| == |users|
    requires forall i :: 0 <= i < |users| ==> users'[i].email == users[i].email && users'[i].id == users[i].id
    ensures ValidUsers(users', nextId)
  {
  }

  /** Appending an account whose email is new and whose id is the next one keeps the accounts
      consistent. */
  lemma AppendKeptValid(users: seq<User>, u: User, nextId: nat)
    requires ValidUsers(users, nextId) && u.id == nextId
    requires forall i :: 0 <= i < |users| ==> users[i].email != u.email
    ensures ValidUsers(users + [u], nextId + 1)
  {
    var users' := users + [u];
    assert forall i :: 0 <= i < |users| ==> users'[i] == users[i];
  }

  /** verify keeps the tables consistent; in particular it never creates a second account for an
      email that already has one. */
  lemma VerifyPreservesValid(t: Tables, email: string, code: string, now: int)
    requires ValidTables(t)
    ensures ValidTables(VerifyStep(t, email, code, now).tables)
  {
    var key := CanonicalEmail(email);
    var st := VerifyStep(t, email, code, now);
    if st.outcome.Failed? {
      VerifyGuards(t, email, code, now);
    } else if FindUser(t.users, key).Some? {
      var u := FindUser(t.users, key).value;
      VerifyConfirmsExisting(t, email, code, now);
      UpdatesKeepKeys(t.users, u.id, "");
      KeysKeptValid(t.users, st.tables.users, t.nextId);
    } else {
      VerifyCreatesAccount(t, email, code, now);
      AppendKeptValid(t.users, User(t.nextId, key, t.verifications[key].password, true), t.nextId);
    }
  }

  /** With consistent tables the account the search finds is the only one with that email. */
  lemma FoundIsOnlyAccount(t: Tables, key: string)
    requires ValidTables(t) && FindUser(t.users, key).Some?
    ensures forall j :: 0 <= j < |t.users| && t.users[j].email == key ==> t.users[j] == FindUser(t.users, key).value
  {
    var u := FindUser(t.users, key).value;
    var i :| 0 <= i < |t.users| && t.users[i] == u && t.users[i].email == key
      && forall j :: 0 <= j < i ==> t.users[j].email != key;
  }

  /** After a successful verify on consistent tables exactly one account has the email, and it
      is confirmed. */
  lemma VerifyLeavesOneConfirmedAccount(t: Tables, email: string, code: string, now: int)
    requires ValidTables(t) && VerifyStep(t, email, code, now).outcome.Done?
    ensures var key := CanonicalEmail(email);
      var s := VerifyStep(t, email, code, now).tables;
      exists i :: 0 <= i < |s.users| && s.users[i].email == key && s.users[i].confirmed
        && forall j :: 0 <= j < |s.users| && s.users[j].email == key ==> j == i
  {
    var key := CanonicalEmail(email);
    var s := VerifyStep(t, email, code, now).tables;
    VerifyPreservesValid(t, email, code, now);
    if FindUser(t.users, key).Some? {
      VerifyConfirmsExisting(t, email, code, now);
    } else {
      VerifyCreatesAccount(t, email, code, now);
    }
    var i :| 0 <= i < |s.users| && s.users[i] == FindUser(s.users, key).value && s.users[i].email == key
      && forall j :: 0 <= j < i ==> s.users[j].email != key;
    assert s.users[i].confirmed;
  }

  /** On consistent tables reset_confirm leaves every account with another email unchanged: only
      the owner of the email gets the new password. */
  lemma ResetConfirmTouchesOnlyOwner(t: Tables, email: string, newPassword: string, now: int)
    requires ValidTables(t)
    ensures var key := CanonicalEmail(email);
      var s := ResetConfirmStep(t, email, newPassword, now).tables;
      && |s.users| == |t.users|
      && forall i :: 0 <= i < |t.users| && t.users[i].email != key ==> s.users[i] == t.users[i]
  {
    var key := CanonicalEmail(email);
    var r := ResetConfirmStep(t, email, newPassword, now);
    if r.outcome.Done? {
      var u := FindUser(t.users, key).value;
      var k :| 0 <= k < |t.users| && t.users[k] == u && t.users[k].email == key
        && forall j :: 0 <= j < k ==> t.users[j].email != key;
      forall i | 0 <= i < |t.users| && t.users[i].email != key
        ensures r.tables.users[i] == t.users[i]
      {
        assert i != k;
        assert t.users[i].id != u.id;
      }
    }
  }

  lemma ResetRequestPreservesValid(t: Tables, email: string, code: string, now: int)
    requires ValidTables(t)
    ensures ValidTables(ResetRequestStep(t, email, code, now).tables)
  {
  }

  lemma ResetConfirmPreservesValid(t: Tables, email: string, newPassword: string, now: int)
    requires ValidTables(t)
    ensures ValidTables(ResetConfirmStep(t, email, newPassword, now).tables)
  {
    var key := CanonicalEmail(email);
    if ResetConfirmStep(t, email, newPassword, now).outcome.Done? {
      UpdatesKeepKeys(t.users, FindUser(t.users, key).value.id, newPassword);
    }
  }

  // ---------------------------------------------------------------------------------------------
  // The endpoints as they run against the store
  // ---------------------------------------------------------------------------------------------

  /** The tables behind the endpoints, updated in place. */
  class AuthStore {
    var verifications: map<string, Pending>
    var resets: map<string, ResetEntry>
    var users: seq<User>
    var profiles: map<nat, Profile>
    var nextId: nat

    function Snapshot(): Tables
      reads this
    {
      Tables(verifications, resets, users, profiles, nextId)
    }

    ghost predicate Valid()
      reads this
    {
      ValidTables(Snapshot())
    }

    constructor()
      ensures Snapshot() == Tables(map[], map[], [], map[], 0)
      ensures Valid()
    {
      verifications, resets, users, profiles, nextId := map[], map[], [], map[], 0;
    }

    /** get_user_by_email: a linear search of the account list. */
    method GetUserByEmail(email: string) returns (user: Option<User>)
      ensures user == FindUser(users, email)
    {
      for i := 0 to |users|
        invariant forall j :: 0 <= j < i ==> users[j].email != email
      {
        if users[i].email == email {
          FirstMatchFound(users, email, i);
          return Some(users[i]);
        }
      }
      return None;
    }

    method Signup(email: string, name: string, password: string, code: string, now: int)
      returns (outcome: Outcome)
      requires Valid()
      modifies this
      ensures Step(Snapshot(), outcome) == SignupStep(old(Snapshot()), email, name, password, code, now)
      ensures Valid()
    {
      SignupPreservesValid(Snapshot(), email, name, password, code, now);
      var key := CanonicalEmail(email);
      var expiry := now + CODE_LIFETIME;
      verifications := verifications[key := Pending(name, password, code, expiry)];
      outcome := Done("verification_sent");
    }

    method Verify(email: string, code: string, now: int) returns (outcome: Outcome)
      requires Valid()
      modifies this
      ensures Step(Snapshot(), outcome) == VerifyStep(old(Snapshot()), email, code, now)
      ensures Valid()
    {
      VerifyPreservesValid(Snapshot(), email, code, now);
      var key := CanonicalEmail(email);
      var entered := Strip(code);
      if key !in verifications {
        return Failed(400, "No verification request found");
      }
      var record := verifications[key];
      if record.expiresAt < now {
        return Failed(400, "Verification code expired");
      }
      if entered != record.code {
        return Failed(400, "Invalid verification code");
      }
      verifications := verifications - {key};
      var user := GetUserByEmail(key);
      var userId: nat;
      if user.Some? {
        users := ConfirmEmail(users, user.value.id);
        userId := user.value.id;
      } else {
        userId := nextId;
        users := users + [User(userId, key, record.password, true)];
        nextId := nextId + 1;
      }
      profiles := profiles[userId := Profile(key, record.name)];
      outcome := Done("verified");
    }

    method ResetRequest(email: string, code: string, now: int) returns (outcome: Outcome)
      requires Valid()
      modifies this
      ensures Step(Snapshot(), outcome) == ResetRequestStep(old(Snapshot()), email, code, now)
      ensures Valid()
    {
      ResetRequestPreservesValid(Snapshot(), email, code, now);
      var key := CanonicalEmail(email);
      var user := GetUserByEmail(key);
      if user.None? {
        return Failed(404, "Email not registered with us. Please create an account.");
      }
      var expiry := now + CODE_LIFETIME;
      resets := resets[key := ResetEntry(code, expiry)];
      outcome := Done("code_sent");
    }

    method ResetVerify(email: string, code: string, now: int) returns (outcome: Outcome)
      ensures outcome == ResetVerifyOutcome(Snapshot(), email, code, now)
    {
      var key := Lower(email);
      if key !in resets {
        return Failed(400, "No reset request found");
      }
      var record := resets[key];
      if record.expiresAt < now {
        return Failed(400, "Code expired");
      }
      if code != record.code {
        return Failed(400, "Invalid code");
      }
      outcome := Done("verified");
    }

    method ResetConfirm(email: string, newPassword: string, now: int) returns (outcome: Outcome)
      requires Valid()
      modifies this
      ensures Step(Snapshot(), outcome) == ResetConfirmStep(old(Snapshot()), email, newPassword, now)
      ensures Valid()
    {
      ResetConfirmPreservesValid(Snapshot(), email, newPassword, now);
      var key := CanonicalEmail(email);
      if key !in resets {
        return Failed(400, "Reset not verified");
      }
      if resets[key].expiresAt < now {
        return Failed(400, "Reset expired");
      }
      var user := GetUserByEmail(key);
      if user.None? {
        return Failed(404, "User not found");
      }
      users := SetPassword(users, user.value.id, newPassword);
      resets := resets - {key};
      outcome := Done("password_updated");
    }

    /** reset_confirm with the code check of ResetConfirmCheckedStep. */
    method ResetConfirmChecked(email: string, code: string, newPassword: string, now: int) returns (outcome: Outcome)
      requires Valid()
      modifies this
      ensures Step(Snapshot(), outcome) == ResetConfirmCheckedStep(old(Snapshot()), email, code, newPassword, now)
      ensures Valid()
    {
      var key := CanonicalEmail(email);
      if key in resets && now <= resets[key].expiresAt && Strip(code) != resets[key].code {
        return Failed(400, "Invalid code");
      }
      outcome := ResetConfirm(email, newPassword, now);
    }
  }

  /** The search stops at the first account with the email. */
  lemma FirstMatchFound(users: seq<User>, email: string, i: nat)
    requires i < |users| && users[i].email == email
    requires forall j :: 0 <= j < i ==> users[j].email != email
    ensures FindUser(users, email) == Some(users[i])
  {
    var f := FindUser(users, email);
    var k :| 0 <= k < |users| && users[k] == f.value && users[k].email == email
      && forall j :: 0 <= j < k ==> users[j].email != email;
    assert k == i;
  }
}
