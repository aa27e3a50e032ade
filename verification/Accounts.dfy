/** Panel accounts and their web sessions: what each administrator operation does to the two tables. */
module Accounts {
  import opened Common

  type Time = int

  datatype Role = Admin | Operator | Viewer

  datatype User = User(
    username: string, displayName: string, passwordHash: string, role: Role, active: bool,
    mustChange: bool, systemUsername: Option<string>, updatedAt: Time)

  datatype Session = Session(userId: int, meta: string, revokedAt: Option<Time>)

  datatype Tables = Tables(users: map<int, User>, sessions: map<string, Session>)

  datatype UpdateRequest = UpdateRequest(displayName: string, role: Role, active: bool, systemUsername: Option<string>)

  datatype DeleteRequest = DeleteRequest(
    panel: bool, systemUser: bool, home: bool, sshKeys: bool, terminate: bool)

  datatype Status =
    | Done | NotFound | TargetRequired | HomeNeedsSystemUser | SelfProtected | LastAdmin
    | NotLinked | NoHelper | HelperFailed | RollbackFailed

  /** The system helper: absent, or present and succeeding or not. */
  datatype Helper = Missing | Works | Refuses

  datatype Op =
    | Create(id: int, user: User)
    | Update(actor: int, id: int, change: UpdateRequest, now: Time)
    | Reset(id: int, hash: string, now: Time)
    | Delete(actor: int, id: int, what: DeleteRequest, helper: Helper, restores: bool, now: Time)

  predicate ActiveAdmin(u: User) {
    u.role.Admin? && u.active
  }

  predicate IsAdmin(users: map<int, User>, id: int) {
    id in users && ActiveAdmin(users[id])
  }

  ghost predicate HasAdmin(users: map<int, User>) {
    exists id :: IsAdmin(users, id)
  }

  /** No active admin but, perhaps, this one. */
  predicate LastActiveAdmin(users: map<int, User>, id: int) {
    forall other :: other in users && IsAdmin(users, other) ==> other == id
  }

  /** web_sessions.user_id references users(id), and usernames are unique. */
  ghost predicate Consistent(t: Tables) {
    && (forall s :: s in t.sessions ==> t.sessions[s].userId in t.users)
    && (forall a, b :: a in t.users && b in t.users && t.users[a].username == t.users[b].username ==> a == b)
  }

  // ---- SQL statements -------------------------------------------------------------------

  function Revoke(sessions: map<string, Session>, id: int, now: Time): map<string, Session> {
    map s | s in sessions ::
      if sessions[s].userId == id && sessions[s].revokedAt.None? then sessions[s].(revokedAt := Some(now)) else sessions[s]
  }

  function SessionsOf(sessions: map<string, Session>, id: int): map<string, Session> {
    map s | s in sessions && sessions[s].userId == id :: sessions[s]
  }

  /** Deleting a user row deletes its sessions with it. */
  function DeleteCascade(t: Tables, id: int): Tables {
    Tables(t.users - {id}, map s | s in t.sessions && t.sessions[s].userId != id :: t.sessions[s])
  }

  // ---- what the operations promise ------------------------------------------------------

  predicate Demotes(u: User, change: UpdateRequest) {
    ActiveAdmin(u) && !(change.role.Admin? && change.active)
  }

  function UpdateStatus(t: Tables, actor: int, id: int, change: UpdateRequest): Status {
    if id == actor && !(change.role.Admin? && change.active) then SelfProtected
    else if id !in t.users then NotFound
    else if Demotes(t.users[id], change) && LastActiveAdmin(t.users, id) then LastAdmin
    else Done
  }

  function Changed(u: User, change: UpdateRequest, now: Time): User {
    u.(displayName := change.displayName, role := change.role, active := change.active,
       systemUsername := change.systemUsername, updatedAt := now)
  }

  predicate NeedsHelper(u: User, what: DeleteRequest) {
    what.systemUser || what.sshKeys || (what.terminate && u.systemUsername.Some?)
  }

  function DeleteStatus(t: Tables, actor: int, id: int, what: DeleteRequest, helper: Helper, restores: bool): Status {
    if id !in t.users then NotFound
    else
      var u := t.users[id];
      if what.home && !what.systemUser then HomeNeedsSystemUser
      else if !what.panel && !what.systemUser && !what.sshKeys && !what.terminate then TargetRequired
      else if what.panel && id == actor then SelfProtected
      else if what.panel && ActiveAdmin(u) && LastActiveAdmin(t.users, id) then LastAdmin
      else if (what.systemUser || what.sshKeys) && u.systemUsername.None? then NotLinked
      else if NeedsHelper(u, what) && helper.Missing? then NoHelper
      else if !NeedsHelper(u, what) || helper.Works? then Done
      else if restores || (!what.panel && !what.terminate) then HelperFailed
      else RollbackFailed
  }

  /** A deletion that went through, or that could not be undone. */
  function Deleted(t: Tables, id: int, what: DeleteRequest, now: Time): Tables {
    if what.panel then DeleteCascade(t, id)
    else if what.terminate then t.(sessions := Revoke(t.sessions, id, now))
    else t
  }

  /** The tables after an operation: unchanged unless it succeeded or its compensation failed. */
  function Apply(t: Tables, op: Op): Tables {
    match op
    case Create(id, user) => if CreateAllowed(t, id, user) then t.(users := t.users[id := user]) else t
    case Update(actor, id, change, now) =>
      if UpdateStatus(t, actor, id, change) != Done then t
      else Tables(t.users[id := Changed(t.users[id], change, now)],
                  if change.active then t.sessions else Revoke(t.sessions, id, now))
    case Reset(id, hash, now) =>
      if id !in t.users then t
      else Tables(t.users[id := t.users[id].(passwordHash := hash, mustChange := true, updatedAt := now)],
                  Revoke(t.sessions, id, now))
    case Delete(actor, id, what, helper, restores, now) =>
      if DeleteStatus(t, actor, id, what, helper, restores) in {Done, RollbackFailed} then Deleted(t, id, what, now) else t
  }

  predicate CreateAllowed(t: Tables, id: int, user: User) {
    id !in t.users && user.active && forall other :: other in t.users ==> t.users[other].username != user.username
  }

  function ApplyAll(t: Tables, ops: seq<Op>): Tables {
    if ops == [] then t else Apply(ApplyAll(t, ops[..|ops| - 1]), ops[|ops| - 1])
  }

  // ---- invariants -------------------------------------------------------------------------

  lemma OpKeepsConsistent(t: Tables, op: Op)
    requires Consistent(t)
    ensures Consistent(Apply(t, op))
  {
  }

  /** An active admin can be lost only to an operation that leaves another one. */
  lemma OpKeepsAdmin(t: Tables, op: Op)
    requires HasAdmin(t.users)
    ensures HasAdmin(Apply(t, op).users)
  {
    var admin :| IsAdmin(t.users, admin);
    var stays := if (op.Update? || op.Delete?) && op.id == admin && !LastActiveAdmin(t.users, admin)
                 then Other(t.users, admin) else admin;
    assert IsAdmin(t.users, stays);
    assert IsAdmin(Apply(t, op).users, stays);
  }

  ghost function Other(users: map<int, User>, id: int): (other: int)
    requires !LastActiveAdmin(users, id)
    ensures IsAdmin(users, other) && other != id
  {
    var other :| other in users && IsAdmin(users, other) && other != id;
    other
  }

  /** In every serial run of the operations, whoever performs them, an active admin remains. */
  lemma {:induction false} AdminsSurvive(t: Tables, ops: seq<Op>)
    requires Consistent(t) && HasAdmin(t.users)
    ensures Consistent(ApplyAll(t, ops)) && HasAdmin(ApplyAll(t, ops).users)
  {
    if ops != [] {
      AdminsSurvive(t, ops[..|ops| - 1]);
      OpKeepsConsistent(ApplyAll(t, ops[..|ops| - 1]), ops[|ops| - 1]);
      OpKeepsAdmin(ApplyAll(t, ops[..|ops| - 1]), ops[|ops| - 1]);
    }
  }

  /** And the active admin who performs one keeps that standing. */
  lemma ActorStaysAdmin(t: Tables, op: Op)
    requires (op.Update? || op.Delete?) && IsAdmin(t.users, op.actor)
    ensures IsAdmin(Apply(t, op).users, op.actor)
  {
  }

  /** Disabling or deleting an account leaves it no usable session. */
  lemma NoSessionOutlivesAccount(t: Tables, op: Op, s: string)
    requires Consistent(t) && s in Apply(t, op).sessions
    requires || (op.Update? && !op.change.active && UpdateStatus(t, op.actor, op.id, op.change).Done?)
             || (op.Delete? && op.what.panel && DeleteStatus(t, op.actor, op.id, op.what, op.helper, op.restores).Done?)
    ensures Apply(t, op).sessions[s].userId == op.id ==> op.Update? && Apply(t, op).sessions[s].revokedAt.Some?
  {
  }

  // ---- which operations are accepted, and what they change ----------------------------------

  /** The row an accepted update stores: name, hash and the duty to change it stay. */
  function Updated(u: User, change: UpdateRequest, now: Time): User {
    User(u.username, change.displayName, u.passwordHash, change.role, change.active, u.mustChange, change.systemUsername, now)
  }

  /** Every session stays, but for those of one user that become revoked now. */
  ghost predicate RevokesOnly(sessions: map<string, Session>, after: map<string, Session>, id: int, now: Time) {
    && after.Keys == sessions.Keys
    && forall s :: s in sessions ==>
         after[s] == if sessions[s].userId == id && sessions[s].revokedAt.None?
                     then Session(id, sessions[s].meta, Some(now)) else sessions[s]
  }

  /** An update is accepted if and only if the account exists, nobody takes the own active admin standing away, and an active
      admin remains if there was one; the row is then as requested, and disabling revokes the account's sessions. */
  lemma UpdateIsExact(t: Tables, actor: int, id: int, change: UpdateRequest, now: Time)
    ensures var t' := Apply(t, Update(actor, id, change, now));
            var stays := change.role == Admin && change.active;
            if id in t.users && (id == actor ==> stays)
               && (HasAdmin(t.users) ==> HasAdmin(t.users[id := Updated(t.users[id], change, now)]))
            then UpdateStatus(t, actor, id, change) == Done
                 && t'.users == t.users[id := Updated(t.users[id], change, now)]
                 && (if change.active then t'.sessions == t.sessions else RevokesOnly(t.sessions, t'.sessions, id, now))
            else UpdateStatus(t, actor, id, change) ==
                   (if id == actor && !stays then SelfProtected else if id !in t.users then NotFound else LastAdmin)
                 && t' == t
  {
    if id in t.users {
      AdminRemains(t.users, id, t.users[id := Updated(t.users[id], change, now)]);
    }
  }

  /** Of one changed or missing row: an active admin is lost if and only if it was the last one. */
  lemma AdminRemains(users: map<int, User>, id: int, after: map<int, User>)
    requires forall other :: other != id ==> (other in after <==> other in users) && (other in users ==> after[other] == users[other])
    ensures (HasAdmin(users) ==> HasAdmin(after)) <==> !(IsAdmin(users, id) && LastActiveAdmin(users, id) && !IsAdmin(after, id))
  {
    if !LastActiveAdmin(users, id) {
      var other := Other(users, id);
      assert IsAdmin(after, other);
    }
    if HasAdmin(users) && !IsAdmin(users, id) {
      var other :| IsAdmin(users, other);
      assert IsAdmin(after, other);
    }
    if IsAdmin(after, id) {
      assert HasAdmin(after);
    }
    if IsAdmin(users, id) {
      assert HasAdmin(users);
    }
  }

  /** What a deletion asks for must make sense: something to delete, and the home directory only with its user. */
  predicate Sensible(what: DeleteRequest) {
    (what.panel || what.systemUser || what.sshKeys || what.terminate) && (what.home ==> what.systemUser)
  }

  /** The system helper has work to do. */
  predicate OnSystem(u: User, what: DeleteRequest) {
    what.systemUser || what.sshKeys || (what.terminate && u.systemUsername.Some?)
  }

  /** The account exists, the request makes sense, nobody deletes the own account, and an active admin remains if there was
      one. */
  ghost predicate Permitted(t: Tables, actor: int, id: int, what: DeleteRequest) {
    && id in t.users && Sensible(what)
    && (what.panel ==> id != actor && (HasAdmin(t.users) ==> HasAdmin(t.users - {id})))
  }

  /** A system account is linked if one is to be changed. */
  predicate Linked(u: User, what: DeleteRequest) {
    what.systemUser || what.sshKeys ==> u.systemUsername.Some?
  }

  /** A deletion goes through if and only if it is permitted, a system account is linked if needed, and so is a working
      helper; then exactly the account with its sessions is gone, or its sessions are revoked, or nothing changes here. */
  lemma DeleteIsExact(t: Tables, actor: int, id: int, what: DeleteRequest, helper: Helper, restores: bool, now: Time)
    ensures var t' := Apply(t, Delete(actor, id, what, helper, restores, now));
            var status := DeleteStatus(t, actor, id, what, helper, restores);
            && (status == Done <==>
                  Permitted(t, actor, id, what) && Linked(t.users[id], what) && (OnSystem(t.users[id], what) ==> helper == Works))
            && (status !in {Done, RollbackFailed} ==> t' == t)
            && (status in {Done, RollbackFailed} ==>
                  if what.panel
                  then t'.users == t.users - {id}
                       && (forall s :: s in t'.sessions <==> s in t.sessions && t.sessions[s].userId != id)
                       && (forall s :: s in t'.sessions ==> t'.sessions[s] == t.sessions[s])
                  else t'.users == t.users
                       && (if what.terminate then RevokesOnly(t.sessions, t'.sessions, id, now) else t'.sessions == t.sessions))
  {
    if id in t.users {
      AdminRemains(t.users, id, t.users - {id});
    }
  }

  /** Which answer a deletion that is not done gets. */
  lemma DeleteAnswers(t: Tables, actor: int, id: int, what: DeleteRequest, helper: Helper, restores: bool)
    ensures var status := DeleteStatus(t, actor, id, what, helper, restores);
            && (status == NotFound <==> id !in t.users)
            && (status == HomeNeedsSystemUser <==> id in t.users && what.home && !what.systemUser)
            && (status == TargetRequired <==>
                  id in t.users && !what.home && !what.panel && !what.systemUser && !what.sshKeys && !what.terminate)
            && (status == SelfProtected <==> id in t.users && Sensible(what) && what.panel && id == actor)
            && (status == LastAdmin <==>
                  id in t.users && Sensible(what) && what.panel && id != actor && HasAdmin(t.users) && !HasAdmin(t.users - {id}))
            && (status == NotLinked <==> Permitted(t, actor, id, what) && !Linked(t.users[id], what))
            && (status == NoHelper <==>
                  && Permitted(t, actor, id, what) && Linked(t.users[id], what) && OnSystem(t.users[id], what)
                  && helper == Missing)
            && (status in {HelperFailed, RollbackFailed} <==>
                  && Permitted(t, actor, id, what) && Linked(t.users[id], what) && OnSystem(t.users[id], what)
                  && helper == Refuses)
            && (status == RollbackFailed ==> !restores && (what.panel || what.terminate))
            && (status == HelperFailed ==> restores || (!what.panel && !what.terminate))
  {
    if id in t.users {
      AdminRemains(t.users, id, t.users - {id});
    }
  }

  /** An account can be created under a free id and a free name, which changes nothing else. */
  lemma CreateIsExact(t: Tables, id: int, user: User)
    ensures Apply(t, Create(id, user)) ==
              if id !in t.users && user.active && (forall other :: other in t.users ==> t.users[other].username != user.username)
              then Tables(t.users[id := user], t.sessions) else t
  {
  }

  /** A password can be reset for any account, which makes its owner change it and revokes its sessions, and nothing else. */
  lemma ResetIsExact(t: Tables, id: int, hash: string, now: Time)
    ensures var t' := Apply(t, Reset(id, hash, now));
            if id in t.users
            then var u := t.users[id];
                 && t'.users == t.users[id := User(u.username, u.displayName, hash, u.role, u.active, true, u.systemUsername, now)]
                 && RevokesOnly(t.sessions, t'.sessions, id, now)
            else t' == t
  {
  }

  // ---- the handlers -----------------------------------------------------------------------

  class Store {
    var users: map<int, User>
    var sessions: map<string, Session>

    function Both(): Tables
      reads this
    {
      Tables(users, sessions)
    }

    ghost predicate Valid()
      reads this
    {
      Consistent(Both())
    }

    constructor (t: Tables)
      requires Consistent(t)
      ensures Both() == t && Valid()
    {
      users, sessions := t.users, t.sessions;
    }

    method IsLastActiveAdmin(excluded: int) returns (last: bool)
      ensures last <==> LastActiveAdmin(users, excluded)
    {
      var others := set id | id in users && IsAdmin(users, id) && id != excluded;
      last := |others| == 0;
      assert last ==> forall id :: id in users && IsAdmin(users, id) && id != excluded ==> id in others;
    }

    method UpdateUser(actor: int, id: int, change: UpdateRequest, now: Time) returns (status: Status)
      requires Valid()
      modifies this
      ensures Valid()
      ensures status == UpdateStatus(old(Both()), actor, id, change)
      ensures Both() == Apply(old(Both()), Update(actor, id, change, now))
    {
      OpKeepsConsistent(Both(), Update(actor, id, change, now));
      if id == actor && (change.role != Admin || !change.active) {
        return SelfProtected;
      }
      if id !in users {
        return NotFound;
      }
      if users[id].role == Admin && users[id].active && (change.role != Admin || !change.active) {
        var last := IsLastActiveAdmin(id);
        if last {
          return LastAdmin;
        }
      }
      users := users[id := users[id].(displayName := change.displayName, role := change.role, active := change.active,
                                      systemUsername := change.systemUsername, updatedAt := now)];
      if !change.active {
        sessions := Revoke(sessions, id, now);
      }
      status := Done;
    }

    /** Put every saved session row back as it was; a failure undoes the whole transaction. */
    method RestoreSessions(saved: map<string, Session>, restores: bool) returns (ok: bool)
      modifies this`sessions
      ensures ok <==> restores
      ensures sessions == if ok then old(sessions) + saved else old(sessions)
    {
      var before := sessions;
      var left := saved.Keys;
      while left != {}
        invariant left <= saved.Keys
        invariant sessions == before + (map s | s in saved && s !in left :: saved[s])
        decreases left
      {
        var s :| s in left;
        left := left - {s};
        sessions := sessions[s := saved[s]];
      }
      if !restores {
        sessions := before;
      }
      ok := restores;
    }

    /** Insert the deleted row and its sessions again, in one transaction. */
    method RestorePanelUser(id: int, target: User, saved: map<string, Session>, restores: bool) returns (ok: bool)
      requires id !in users
      modifies this
      ensures ok <==> restores
      ensures Both() == if ok then Tables(old(users)[id := target], old(sessions) + saved) else old(Both())
    {
      if !restores {
        return false;
      }
      users := users[id := target];
      sessions := sessions + saved;
      ok := true;
    }

    /** Delete first, then call the system helper, and take the deletion back when the helper fails: then both tables
        are exactly as before, for a deleted account with its cascaded sessions and for revoked sessions alike. */
    method DeleteUser(actor: int, id: int, what: DeleteRequest, helper: Helper, restores: bool, now: Time)
      returns (status: Status)
      requires Valid()
      modifies this
      ensures Valid()
      ensures status == DeleteStatus(old(Both()), actor, id, what, helper, restores)
      ensures Both() == Apply(old(Both()), Delete(actor, id, what, helper, restores, now))
      ensures status == HelperFailed ==> users == old(users) && sessions == old(sessions)
    {
      OpKeepsConsistent(Both(), Delete(actor, id, what, helper, restores, now));
      if id !in users {
        return NotFound;
      }
      var target := users[id];
      if what.home && !what.systemUser {
        return HomeNeedsSystemUser;
      }
      if !what.panel && !what.systemUser && !what.sshKeys && !what.terminate {
        return TargetRequired;
      }
      if what.panel && id == actor {
        return SelfProtected;
      }
      if what.panel && target.role == Admin && target.active {
        var last := IsLastActiveAdmin(id);
        if last {
          return LastAdmin;
        }
      }
      if (what.systemUser || what.sshKeys) && target.systemUsername.None? {
        return NotLinked;
      }
      var needsHelper := what.systemUser || what.sshKeys || (what.terminate && target.systemUsername.Some?);
      if needsHelper && helper.Missing? {
        return NoHelper;
      }
      var saved := SessionsOf(sessions, id);
      if what.panel {
        var left := DeleteCascade(Both(), id);
        users, sessions := left.users, left.sessions;
      } else if what.terminate {
        sessions := Revoke(sessions, id, now);
      }
      status := Done;
      if target.systemUsername.Some? && needsHelper && helper.Refuses? {
        status := Compensate(id, target, saved, what, restores, now, old(Both()));
      }
    }

    method Compensate(id: int, target: User, saved: map<string, Session>, what: DeleteRequest, restores: bool, now: Time,
                      ghost before: Tables) returns (status: Status)
      requires id in before.users && target == before.users[id] && saved == SessionsOf(before.sessions, id)
      requires Both() == Deleted(before, id, what, now)
      modifies this
      ensures status == if restores || (!what.panel && !what.terminate) then HelperFailed else RollbackFailed
      ensures Both() == if status.HelperFailed? then before else Deleted(before, id, what, now)
    {
      if what.panel {
        var ok := RestorePanelUser(id, target, saved, restores);
        if !ok {
          return RollbackFailed;
        }
        assert users == before.users && sessions == before.sessions;
      } else if what.terminate {
        var ok := RestoreSessions(saved, restores);
        if !ok {
          return RollbackFailed;
        }
        assert sessions == before.sessions;
      }
      status := HelperFailed;
    }
  }
}
