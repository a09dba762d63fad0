/** The older key manager: one global `KeyManager` over AccessRights, held in
    the thread-local cell `KEY_MANAGER: RefCell<Option<KeyManager>>`.

    The cell is the field of class GlobalKeyManager: None until `try_init`
    stores the two maps.  The read-only operations are functions of the
    cell's value; `set_user_rights` and `remove_user` are methods that
    update it through WithBorrowMut.  Every closure the source passes to
    `with_borrow` and `with_borrow_mut` returns `Ok::<_, ()>`, so they are
    modelled as plain functions of the key manager. */
module CdkKeyManager {
  import opened Wrappers
  import opened Types
  import opened KeyOrder
  import opened KeyIndexes
  import GenericKeyManager

  const Unauthorized: string := "unauthorized"
  const MemoryNotInitialized: string := "memory not initialized"
  const CannotChangeOwnerRights: string := "cannot change key owner's user rights"
  const CannotRemoveOwner: string := "cannot remove key owner"

  /** `KEY_MANAGER_DERIVATION_PATH`, the bytes of "key_manager". */
  const KeyManagerDerivationPath: Bytes := [107, 101, 121, 95, 109, 97, 110, 97, 103, 101, 114]

  datatype MemoryInitializationError = AlreadyInitialized

  /** The contents of `KEY_MANAGER`. */
  type Cell = Option<Indexes<AccessRights>>

  /** `KeyManager::with_borrow`: runs `f` on the key manager, or fails when
      there is none yet. */
  function WithBorrow<R>(cell: Cell, f: Indexes<AccessRights> -> R): (r: Result<R, string>)
    ensures r.Ok? <==> cell.Some?
    ensures cell.None? ==> r == Err(MemoryNotInitialized)
    ensures r.Ok? ==> r.value == f(cell.value)
  {
    match cell
    case Some(km) => Ok(f(km))
    case None => Err(MemoryNotInitialized)
  }

  // ---------------------------------------------------------------------
  // Authorization
  // ---------------------------------------------------------------------

  /** `ensure_user_can_read`: the owner by identity; anyone else with any
      stored rights.  The lookup unwraps `with_borrow`, so a non-owner
      before initialization panics. */
  function EnsureUserCanRead(cell: Cell, user: Principal, keyId: KeyId): (r: Result<AccessRights, string>)
    ensures user == keyId.0 ==> r == Ok(ReadWriteManage)
    ensures user != keyId.0 && cell.None? ==> r.Panic?
    ensures user != keyId.0 && cell.Some? ==>
      && (r.Ok? <==> (user, keyId) in cell.value.accessControl)
      && (r.Ok? ==> r.value == cell.value.accessControl[(user, keyId)])
      && (!r.Ok? ==> r == Err(Unauthorized))
  {
    if user == keyId.0 then Ok(ReadWriteManage)
    else
      var stored: Result<Option<AccessRights>, string> :=
        WithBorrow(cell, (km: Indexes<AccessRights>) => Stored(km.accessControl, user, keyId));
      match stored
      case Ok(Some(rights)) => Ok(rights)
      case Ok(None) => Err(Unauthorized)
      case _ => Panic("called `Result::unwrap()` on an `Err` value")
  }

  /** `ensure_user_can_manage`: the owner by identity; anyone else only with
      stored ReadWriteManage.  A non-owner before initialization panics. */
  function EnsureUserCanManage(cell: Cell, user: Principal, keyId: KeyId): (r: Result<AccessRights, string>)
    ensures user == keyId.0 ==> r == Ok(ReadWriteManage)
    ensures user != keyId.0 && cell.None? ==> r.Panic?
    ensures user != keyId.0 && cell.Some? ==>
      && (r.Ok? <==> Stored(cell.value.accessControl, user, keyId) == Some(ReadWriteManage))
      && (r.Ok? ==> r.value == ReadWriteManage)
      && (!r.Ok? ==> r == Err(Unauthorized))
  {
    if user == keyId.0 then Ok(ReadWriteManage)
    else
      var stored: Result<Option<AccessRights>, string> :=
        WithBorrow(cell, (km: Indexes<AccessRights>) => Stored(km.accessControl, user, keyId));
      match stored
      case Ok(Some(rights)) => if rights == ReadWriteManage then Ok(rights) else Err(Unauthorized)
      case Ok(None) => Err(Unauthorized)
      case _ => Panic("called `Result::unwrap()` on an `Err` value")
  }

  /** Once initialized, the read check is the generic read check with
      AccessRights. */
  lemma ReadCheckAgreesWithGeneric(km: Indexes<AccessRights>, user: Principal, keyId: KeyId)
    ensures EnsureUserCanRead(Some(km), user, keyId)
         == GenericKeyManager.EnsureUserCan(RightsAccessControl(), km.accessControl, user, keyId, CanRead)
  {
  }

  /** Once initialized, the manage check is the generic rights-setting check
      with AccessRights. */
  lemma ManageCheckAgreesWithGeneric(km: Indexes<AccessRights>, user: Principal, keyId: KeyId)
    ensures EnsureUserCanManage(Some(km), user, keyId)
         == GenericKeyManager.EnsureUserCan(RightsAccessControl(), km.accessControl, user, keyId, CanSetUserRights)
  {
  }

  // ---------------------------------------------------------------------
  // Read-only operations
  // ---------------------------------------------------------------------

  /** `get_user_rights`: gated by the caller's READ check (not a
      rights-inspection check), then the user's read check as an Option. */
  function GetUserRights(cell: Cell, caller: Principal, keyId: KeyId, user: Principal): (r: Result<Option<AccessRights>, string>)
    ensures cell.Some? ==>
      && (r.Ok? <==> EnsureUserCanRead(cell, caller, keyId).Ok?)
      && (!r.Ok? ==> r == Err(Unauthorized))
      && (r.Ok? ==> r.value == GenericKeyManager.EffectiveRights(RightsAccessControl(), cell.value.accessControl, user, keyId))
    ensures cell.None? ==>
      if caller == keyId.0 && user == keyId.0 then r == Ok(Some(ReadWriteManage)) else r.Panic?
  {
    match EnsureUserCanRead(cell, caller, keyId)
    case Ok(_) =>
      (match EnsureUserCanRead(cell, user, keyId)
       case Ok(rights) => Ok(Some(rights))
       case Err(_) => Ok(None)
       case Panic(m) => Panic(m))
    case Err(e) => Err(e)
    case Panic(m) => Panic(m)
  }

  /** `get_accessible_shared_key_ids`: the key ids the caller holds rights
      on, in key order, each once; `expect("cannot fail")` panics before
      initialization. */
  function GetAccessibleSharedKeyIds(cell: Cell, caller: Principal): (r: Result<seq<KeyId>, string>)
    ensures cell.None? <==> r.Panic?
    ensures r.Ok? ==> forall k :: k in r.value <==> (caller, k) in cell.value.accessControl
    ensures r.Ok? ==> StrictlyIncreasing(r.value, KeyIdLe)
    ensures !r.Err?
  {
    match WithBorrow(cell, (km: Indexes<AccessRights>) => AccessibleKeyIds(km.accessControl, caller))
    case Ok(ids) => Ok(ids)
    case _ => Panic("cannot fail")
  }

  /** `get_shared_user_access_for_key`: gated by the caller's read check,
      then every user the key is shared with, in principal order, paired
      with their rights; a user without rights panics. */
  function GetSharedUserAccessForKey(cell: Cell, caller: Principal, keyId: KeyId)
    : (r: Result<seq<(Principal, AccessRights)>, string>)
    ensures cell.Some? && !EnsureUserCanRead(cell, caller, keyId).Ok? ==> r == Err(Unauthorized)
    ensures cell.None? ==> if caller == keyId.0 then r == Err(MemoryNotInitialized) else r.Panic?
    ensures r.Ok? ==> cell.Some? && |r.value| == |SharedUsers(cell.value.sharedKeys, keyId)|
    ensures r.Ok? ==> forall i | 0 <= i < |r.value| ::
      && r.value[i].0 == SharedUsers(cell.value.sharedKeys, keyId)[i]
      && Some(r.value[i].1) == GenericKeyManager.EffectiveRights(RightsAccessControl(), cell.value.accessControl, r.value[i].0, keyId)
  {
    match EnsureUserCanRead(cell, caller, keyId)
    case Ok(_) =>
      (match WithBorrow(cell, (km: Indexes<AccessRights>) => SharedUsers(km.sharedKeys, keyId))
       case Ok(users) => CollectUserRights(users, u => GetUserRights(cell, caller, keyId, u))
       case Err(e) => Err(e)
       case Panic(m) => Panic(m))
    case Err(e) => Err(e)
    case Panic(m) => Panic(m)
  }

  /** On symmetric indexes, a caller who can read gets the full listing. */
  lemma {:induction false} SharedUserAccessComplete(km: Indexes<AccessRights>, caller: Principal, keyId: KeyId)
    requires Symmetric(km)
    requires EnsureUserCanRead(Some(km), caller, keyId).Ok?
    ensures GetSharedUserAccessForKey(Some(km), caller, keyId).Ok?
  {
    var users := SharedUsers(km.sharedKeys, keyId);
    var lookup := u => GetUserRights(Some(km), caller, keyId, u);
    forall i | 0 <= i < |users| ensures Resolves(lookup(users[i])) {
      assert (keyId, users[i]) in km.sharedKeys;
      assert users[i] != keyId.0 ==> (users[i], keyId) in km.accessControl;
    }
  }

  /** `is_key_shared`: whether the key is shared with at least one user
      (the first element of the key's range exists). */
  function IsKeyShared(cell: Cell, keyId: KeyId): (r: Result<bool, string>)
    ensures r.Ok? <==> cell.Some?
    ensures cell.None? ==> r == Err(MemoryNotInitialized)
    ensures r.Ok? ==> (r.value <==> exists e | e in cell.value.sharedKeys :: e.0 == keyId)
  {
    WithBorrow(cell, (km: Indexes<AccessRights>) => SharedUsers(km.sharedKeys, keyId) != [])
  }

  /** On symmetric indexes, a key is shared exactly when some user holds
      stored rights on it. */
  lemma IsKeySharedIffGranted(km: Indexes<AccessRights>, keyId: KeyId)
    requires Symmetric(km)
    ensures IsKeyShared(Some(km), keyId).value <==> exists g | g in km.accessControl :: g.1 == keyId
  {
    if IsKeyShared(Some(km), keyId).value {
      var e :| e in km.sharedKeys && e.0 == keyId;
      assert (e.1, e.0) in km.accessControl;
    }
    if exists g | g in km.accessControl :: g.1 == keyId {
      var g :| g in km.accessControl && g.1 == keyId;
      assert (g.1, g.0) in km.sharedKeys;
    }
  }

  // ---------------------------------------------------------------------
  // Derivation id and the encrypted-key request
  // ---------------------------------------------------------------------

  /** The `derivation_id`: the owner's bytes chained with the name's. */
  function DerivationId(keyId: KeyId): (id: Bytes)
    ensures |id| == |keyId.0| + |keyId.1|
    ensures id[..|keyId.0|] == keyId.0 && id[|keyId.0|..] == keyId.1
  {
    keyId.0 + keyId.1
  }

  /** Two different keys with the same derivation id: the owner [1, 2] with
      the name [3], and the owner [1] with the name [2, 3]. */
  lemma DerivationIdCollides()
    ensures var a: KeyId, b: KeyId := ([1, 2], [3]), ([1], [2, 3]);
      a != b && DerivationId(a) == DerivationId(b)
  {
    var a: KeyId, b: KeyId := ([1, 2], [3]), ([1], [2, 3]);
    assert a.0 != b.0 by { assert |a.0| != |b.0|; }
    assert DerivationId(a) == [1, 2, 3] == DerivationId(b);
  }

  /** `VetKDEncryptedKeyRequest` without the fixed key id. */
  datatype EncryptedKeyRequest = EncryptedKeyRequest(
    derivationId: Bytes,
    publicKeyDerivationPath: seq<Bytes>,
    encryptionPublicKey: Bytes)

  /** `get_encrypted_vetkey` up to the system call: the caller's read check,
      then the request it sends. */
  function GetEncryptedVetkey(cell: Cell, caller: Principal, keyId: KeyId, transportKey: ByteBuf)
    : (r: Result<EncryptedKeyRequest, string>)
    ensures r.Ok? <==> EnsureUserCanRead(cell, caller, keyId).Ok?
    ensures cell.Some? && !r.Ok? ==> r == Err(Unauthorized)
    ensures r.Ok? ==> r.value.derivationId == DerivationId(keyId)
    ensures r.Ok? ==> r.value.publicKeyDerivationPath == [KeyManagerDerivationPath]
    ensures r.Ok? ==> ByteBufFromVec(r.value.encryptionPublicKey) == transportKey
  {
    match EnsureUserCanRead(cell, caller, keyId)
    case Ok(_) =>
      Ok(EncryptedKeyRequest(DerivationId(keyId), [KeyManagerDerivationPath], VecFromByteBuf(transportKey)))
    case Err(e) => Err(e)
    case Panic(m) => Panic(m)
  }

  /** Rights inspection is gated differently in the two versions: a
      ReadWrite grantee may read another user's rights here, but not in the
      generic manager with AccessRights. */
  lemma RightsInspectionGateDiffers()
    ensures var owner: Principal, grantee: Principal := [1], [2];
      var keyId: KeyId := (owner, []);
      var km := Indexes(map[(grantee, keyId) := ReadWrite], {(keyId, grantee)});
      && GetUserRights(Some(km), grantee, keyId, owner) == Ok(Some(ReadWriteManage))
      && GenericKeyManager.GetUserRights(RightsAccessControl(), km.accessControl, grantee, keyId, owner)
         == Err(GenericKeyManager.Unauthorized)
  {
  }

  // ---------------------------------------------------------------------
  // The global cell and its mutating operations
  // ---------------------------------------------------------------------

  class GlobalKeyManager {
    var cell: Cell

    ghost predicate Valid()
      reads this
    {
      cell.Some? ==> Symmetric(cell.value)
    }

    /** The thread-local starts out empty. */
    constructor ()
      ensures cell == None
    {
      cell := None;
    }

    /** `try_init`: stores a key manager over the two memories' maps the first
        time, and refuses every later time. */
    method TryInit(memory0: map<(Principal, KeyId), AccessRights>, memory1: set<(KeyId, Principal)>)
      returns (r: Result<(), MemoryInitializationError>)
      modifies this
      ensures old(cell).Some? ==> r == Err(AlreadyInitialized) && cell == old(cell)
      ensures old(cell).None? ==> r == Ok(()) && cell == Some(Indexes(memory0, memory1))
    {
      if cell.Some? {
        return Err(AlreadyInitialized);
      }
      cell := Some(Indexes(memory0, memory1));
      r := Ok(());
    }

    /** `KeyManager::with_borrow_mut`: runs `f` on the key manager and keeps
        the key manager it leaves, or fails when there is none yet. */
    method WithBorrowMut<R>(f: Indexes<AccessRights> -> (Indexes<AccessRights>, R)) returns (r: Result<R, string>)
      modifies this
      ensures old(cell).None? ==> r == Err(MemoryNotInitialized) && cell == None
      ensures old(cell).Some? ==> r == Ok(f(old(cell).value).1) && cell == Some(f(old(cell).value).0)
    {
      match cell
      case None =>
        r := Err(MemoryNotInitialized);
      case Some(km) =>
        var (next, result) := f(km);
        cell := Some(next);
        r := Ok(result);
    }

    /** `set_user_rights`: the caller's manage check, the owner guard, then
        the grant in both maps, returning what the user held before. */
    method SetUserRights(caller: Principal, keyId: KeyId, user: Principal, rights: AccessRights)
      returns (r: Result<Option<AccessRights>, string>)
      modifies this
      ensures
        var auth := EnsureUserCanManage(old(cell), caller, keyId);
        if auth.Panic? then r.Panic? && cell == old(cell)
        else if auth.Err? then r == Err(Unauthorized) && cell == old(cell)
        else if caller == keyId.0 && caller == user then r == Err(CannotChangeOwnerRights) && cell == old(cell)
        else if old(cell).None? then r == Err(MemoryNotInitialized) && cell == None
        else r == Ok(Stored(old(cell).value.accessControl, user, keyId))
             && cell == Some(Grant(old(cell).value, keyId, user, rights))
      ensures old(Valid()) ==> Valid()
    {
      var auth := EnsureUserCanManage(cell, caller, keyId);
      if auth.Panic? {
        return Panic(auth.message);
      }
      if auth.Err? {
        return Err(auth.error);
      }
      if caller == keyId.0 && caller == user {
        return Err(CannotChangeOwnerRights);
      }
      ghost var before := cell;
      r := WithBorrowMut((km: Indexes<AccessRights>) => (Grant(km, keyId, user, rights), Stored(km.accessControl, user, keyId)));
      if before.Some? && Symmetric(before.value) {
        GrantKeepsSymmetry(before.value, keyId, user, rights);
      }
    }

    /** `remove_user`: the caller's manage check, the owner guard, then the
        removal from both maps, returning what the user held. */
    method RemoveUser(caller: Principal, keyId: KeyId, user: Principal)
      returns (r: Result<Option<AccessRights>, string>)
      modifies this
      ensures
        var auth := EnsureUserCanManage(old(cell), caller, keyId);
        if auth.Panic? then r.Panic? && cell == old(cell)
        else if auth.Err? then r == Err(Unauthorized) && cell == old(cell)
        else if caller == user && caller == keyId.0 then r == Err(CannotRemoveOwner) && cell == old(cell)
        else if old(cell).None? then r == Err(MemoryNotInitialized) && cell == None
        else r == Ok(Stored(old(cell).value.accessControl, user, keyId))
             && cell == Some(Revoke(old(cell).value, keyId, user))
      ensures old(Valid()) ==> Valid()
    {
      var auth := EnsureUserCanManage(cell, caller, keyId);
      if auth.Panic? {
        return Panic(auth.message);
      }
      if auth.Err? {
        return Err(auth.error);
      }
      if caller == user && caller == keyId.0 {
        return Err(CannotRemoveOwner);
      }
      ghost var before := cell;
      r := WithBorrowMut((km: Indexes<AccessRights>) => (Revoke(km, keyId, user), Stored(km.accessControl, user, keyId)));
      if before.Some? && Symmetric(before.value) {
        RevokeKeepsSymmetry(before.value, keyId, user);
      }
    }
  }

  // ---------------------------------------------------------------------
  // Call sequences
  // ---------------------------------------------------------------------

  /** Initialization succeeds once; the second attempt is refused and leaves
      the first key manager in place, which the queries then see. */
  method InitTwice(g: GlobalKeyManager, memory0: map<(Principal, KeyId), AccessRights>, memory1: set<(KeyId, Principal)>,
                   other0: map<(Principal, KeyId), AccessRights>, other1: set<(KeyId, Principal)>)
    returns (first: Result<(), MemoryInitializationError>, second: Result<(), MemoryInitializationError>)
    requires g.cell == None
    modifies g
    ensures first == Ok(()) && second == Err(AlreadyInitialized)
    ensures g.cell == Some(Indexes(memory0, memory1))
    ensures forall c :: IsKeyShared(g.cell, c).Ok? && GetAccessibleSharedKeyIds(g.cell, c.0).Ok?
  {
    first := g.TryInit(memory0, memory1);
    second := g.TryInit(other0, other1);
  }

  /** The owner grants a new user rights twice, then removes the user: the
      calls report no previous rights, the first grant's rights, and the
      second grant's rights, and the maps end as they began. */
  method GrantTwiceThenRemove(g: GlobalKeyManager, keyId: KeyId, user: Principal, rights: AccessRights)
    returns (first: Result<Option<AccessRights>, string>, second: Result<Option<AccessRights>, string>,
             removed: Result<Option<AccessRights>, string>)
    requires g.cell.Some? && Symmetric(g.cell.value)
    requires user != keyId.0 && (user, keyId) !in g.cell.value.accessControl
    modifies g
    ensures first == Ok(None) && second == Ok(Some(rights)) && removed == Ok(Some(rights))
    ensures g.cell == old(g.cell)
  {
    first := g.SetUserRights(keyId.0, keyId, user, rights);
    second := g.SetUserRights(keyId.0, keyId, user, rights);
    GrantIdempotent(old(g.cell.value), keyId, user, rights);
    removed := g.RemoveUser(keyId.0, keyId, user);
    RevokeUndoesGrant(old(g.cell.value), keyId, user, rights);
  }
}
