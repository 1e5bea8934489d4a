/** The user-store mutations of vpn-admin, as functions on the loaded list. */
module UserOps {
  import opened Wrappers
  import opened CompatModel
  import opened ServerRender

  datatype UserOp =
    | Create(user: CompatUser, draws: seq<string>)
    | Remove(id: string)
    | SetEnabled(id: string, enabled: bool)
    | RotateVless(id: string, uuid: string)
    | RotateHysteria(id: string, password: string)
    | RotateCredentials(id: string, uuid: string, password: string)
    | RotateToken(id: string, tokenHash: string)

  predicate HasId(users: seq<CompatUser>, id: string) {
    users != [] && (users[0].id == id || HasId(users[1..], id))
  }

  ghost predicate DistinctIds(users: seq<CompatUser>) {
    forall i, j :: 0 <= i < j < |users| ==> users[i].id != users[j].id
  }

  /** The first generated id no user has yet; `None` while every draw collided. */
  function FirstFresh(users: seq<CompatUser>, draws: seq<string>): (id: Option<string>)
    ensures id.Some? ==> !HasId(users, id.value) && id.value in draws
    ensures id.None? <==> forall i :: 0 <= i < |draws| ==> HasId(users, draws[i])
  {
    if draws == [] then None
    else if !HasId(users, draws[0]) then Some(draws[0])
    else FirstFresh(users, draws[1..])
  }

  function Without(users: seq<CompatUser>, id: string): seq<CompatUser> {
    if users == [] then []
    else (if users[0].id != id then [users[0]] else []) + Without(users[1..], id)
  }

  function Edit(op: UserOp, u: CompatUser): CompatUser {
    match op
    case SetEnabled(_, enabled) => u.(enabled := enabled)
    case RotateVless(_, uuid) => u.(vlessUuid := uuid)
    case RotateHysteria(_, password) => u.(hysteria2Password := password)
    case RotateCredentials(_, uuid, password) => u.(vlessUuid := uuid, hysteria2Password := password)
    case RotateToken(_, tokenHash) => u.(tokenHash := tokenHash)
    case _ => u
  }

  /** Edits the first user carrying the id, as `find_user_mut` finds it. */
  function EditFirst(users: seq<CompatUser>, id: string, op: UserOp): Option<seq<CompatUser>> {
    if users == [] then None
    else if users[0].id == id then Some([Edit(op, users[0])] + users[1..])
    else match EditFirst(users[1..], id, op)
         case None => None
         case Some(rest) => Some([users[0]] + rest)
  }

  /** The proposed list, or `None` where the command stops with "no such user". */
  function ApplyOp(users: seq<CompatUser>, op: UserOp): Option<seq<CompatUser>> {
    match op
    case Create(user, draws) =>
      (match FirstFresh(users, draws)
       case None => None
       case Some(id) => Some(users + [user.(id := id)]))
    case Remove(id) =>
      var kept := Without(users, id);
      if |kept| == |users| then None else Some(kept)
    case _ => EditFirst(users, op.id, op)
  }

  lemma {:induction false} HasIdMeans(users: seq<CompatUser>, id: string)
    ensures HasId(users, id) <==> exists i :: 0 <= i < |users| && users[i].id == id
  {
    if users != [] {
      HasIdMeans(users[1..], id);
      forall i | 0 < i < |users| ensures users[i] == users[1..][i - 1] {}
    }
  }

  /** Removal keeps exactly the users with another id, and fails exactly when nobody has this one. */
  lemma {:induction false} WithoutKeeps(users: seq<CompatUser>, id: string)
    ensures forall u :: u in Without(users, id) <==> u in users && u.id != id
    ensures |Without(users, id)| <= |users|
    ensures |Without(users, id)| == |users| <==> !HasId(users, id)
  {
    if users != [] {
      WithoutKeeps(users[1..], id);
      assert users == [users[0]] + users[1..];
    }
  }

  lemma {:induction false} WithoutDistinct(users: seq<CompatUser>, id: string)
    requires DistinctIds(users)
    ensures DistinctIds(Without(users, id))
  {
    if users != [] {
      WithoutDistinct(users[1..], id);
      WithoutKeeps(users[1..], id);
      var rest := Without(users[1..], id);
      forall i | 0 <= i < |rest| ensures rest[i].id != users[0].id {
        assert rest[i] in users[1..];
        var j :| 0 <= j < |users[1..]| && users[1..][j] == rest[i];
        assert users[j + 1] == rest[i];
      }
    }
  }

  lemma {:induction false} EditFirstShape(users: seq<CompatUser>, id: string, op: UserOp)
    ensures EditFirst(users, id, op).None? <==> !HasId(users, id)
    ensures EditFirst(users, id, op).Some? ==>
              |EditFirst(users, id, op).value| == |users|
              && forall i :: 0 <= i < |users| ==> EditFirst(users, id, op).value[i].id == users[i].id
  {
    if users != [] && users[0].id != id {
      EditFirstShape(users[1..], id, op);
    }
  }

  /** Ids stay pairwise distinct under every mutation. */
  lemma OpsKeepIdsDistinct(users: seq<CompatUser>, op: UserOp)
    requires DistinctIds(users)
    ensures ApplyOp(users, op).Some? ==> DistinctIds(ApplyOp(users, op).value)
  {
    match op
    case Create(user, draws) =>
      var newId := FirstFresh(users, draws);
      if newId.Some? {
        HasIdMeans(users, newId.value);
      }
    case Remove(id) => WithoutDistinct(users, id);
    case _ => EditFirstShape(users, op.id, op);
  }

  lemma {:induction false} EditTokenActive(users: seq<CompatUser>, id: string, op: UserOp, now: int)
    requires op.RotateToken? && EditFirst(users, id, op).Some?
    ensures var a, b := ActiveUsers(users, now), ActiveUsers(EditFirst(users, id, op).value, now);
            |a| == |b| && forall i :: 0 <= i < |a| ==>
              a[i].id == b[i].id && a[i].vlessUuid == b[i].vlessUuid && a[i].hysteria2Password == b[i].hysteria2Password
  {
    if users[0].id == id {
      assert ([Edit(op, users[0])] + users[1..])[1..] == users[1..];
    } else {
      EditTokenActive(users[1..], id, op, now);
      var rest := EditFirst(users[1..], id, op).value;
      assert ([users[0]] + rest)[1..] == rest;
    }
  }

  /** Rotating a subscription token changes no server document, at any time. */
  lemma TokenRotationKeepsAuthorization(
    users: seq<CompatUser>, op: UserOp, reality: RealityServerParams, hysteria: Hysteria2ServerParams,
    ports: ServerPorts, now: int)
    requires op.RotateToken? && ApplyOp(users, op).Some?
    ensures RenderServer(ApplyOp(users, op).value, reality, hysteria, ports, now)
         == RenderServer(users, reality, hysteria, ports, now)
  {
    EditTokenActive(users, op.id, op, now);
    var a, b := ActiveUsers(users, now), ActiveUsers(ApplyOp(users, op).value, now);
    assert VlessUsers(a) == VlessUsers(b);
    assert HysteriaUsers(a) == HysteriaUsers(b);
  }

  /** Disabling a user who is already expired renders the same document. */
  lemma {:induction false} DisablingInactive(users: seq<CompatUser>, id: string, now: int)
    requires EditFirst(users, id, SetEnabled(id, false)).Some?
    requires forall i :: 0 <= i < |users| && users[i].id == id ==> !users[i].IsActive(now)
    ensures ActiveUsers(EditFirst(users, id, SetEnabled(id, false)).value, now) == ActiveUsers(users, now)
  {
    var op := SetEnabled(id, false);
    if users[0].id == id {
      assert ([Edit(op, users[0])] + users[1..])[1..] == users[1..];
    } else {
      DisablingInactive(users[1..], id, now);
      var rest := EditFirst(users[1..], id, op).value;
      assert ([users[0]] + rest)[1..] == rest;
    }
  }
}
