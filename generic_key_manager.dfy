/** The generic key manager, `KeyManager<T: AccessControl>`.

    The struct's two stable maps are the fields of class KeyManager, whose
    methods SetUserRights and RemoveUser update them in place.  The
    read-only operations (`&self`) are functions of the two maps' values.
    The capability interface `T: AccessControl` is passed as a value of
    AccessControl<T>. */
module GenericKeyManager {
  import opened Wrappers
  import opened Types
  import opened KeyOrder
  import opened KeyIndexes

  const Unauthorized: string := "unauthorized"
  const CannotChangeOwnerRights: string := "cannot change key owner's user rights"
  const CannotRemoveOwner: string := "cannot remove key owner"

  // ---------------------------------------------------------------------
  // Authorization
  // ---------------------------------------------------------------------

  /** The rights `user` holds on `keyId`: the owner's by identity, anyone
      else's as stored. */
  function EffectiveRights<T>(ac: AccessControl<T>, accessControl: map<(Principal, KeyId), T>, user: Principal, keyId: KeyId): Option<T>
  {
    if user == keyId.0 then Some(ac.ownerRights) else Stored(accessControl, user, keyId)
  }

  /** `ensure_user_can_read`, `ensure_user_can_write`,
      `ensure_user_can_get_user_rights` and `ensure_user_can_set_user_rights`:
      the four checks differ only in the capability they test, `allowed`
      (ac.canRead, ac.canWrite, ac.canGetUserRights, ac.canSetUserRights).
      The owner passes by identity whatever is stored for them; anyone else
      passes with stored rights that have the capability. */
  function EnsureUserCan<T>(ac: AccessControl<T>, accessControl: map<(Principal, KeyId), T>,
                            user: Principal, keyId: KeyId, allowed: T -> bool): (r: Result<T, string>)
    ensures user == keyId.0 ==> r == Ok(ac.ownerRights)
    ensures user != keyId.0 ==>
      (r.Ok? <==> (user, keyId) in accessControl && allowed(accessControl[(user, keyId)]))
    ensures user != keyId.0 && r.Ok? ==> r.value == accessControl[(user, keyId)]
    ensures !r.Ok? ==> r == Err(Unauthorized)
  {
    if user == keyId.0 then Ok(ac.ownerRights)
    else
      match Get(accessControl, (user, keyId))
      case Some(rights) => if allowed(rights) then Ok(rights) else Err(Unauthorized)
      case None => Err(Unauthorized)
  }

  /** A check passes exactly when the user's effective rights have the
      capability, and it then returns those rights. */
  lemma EnsureUserCanIsEffectiveRights<T>(ac: AccessControl<T>, accessControl: map<(Principal, KeyId), T>,
                                          user: Principal, keyId: KeyId, allowed: T -> bool)
    requires allowed(ac.ownerRights)
    ensures EnsureUserCan(ac, accessControl, user, keyId, allowed).Ok? <==>
      (EffectiveRights(ac, accessControl, user, keyId).Some? && allowed(EffectiveRights(ac, accessControl, user, keyId).value))
    ensures EnsureUserCan(ac, accessControl, user, keyId, allowed).Ok? ==>
      Some(EnsureUserCan(ac, accessControl, user, keyId, allowed).value) == EffectiveRights(ac, accessControl, user, keyId)
  {
  }

  /** A row stored for the owner never changes what the owner may do. */
  lemma OwnerRowIgnored<T>(ac: AccessControl<T>, accessControl: map<(Principal, KeyId), T>,
                           keyId: KeyId, rights: T, allowed: T -> bool)
    ensures EnsureUserCan(ac, accessControl[(keyId.0, keyId) := rights], keyId.0, keyId, allowed)
         == EnsureUserCan(ac, accessControl - {(keyId.0, keyId)}, keyId.0, keyId, allowed)
  {
  }

  /** With AccessRights, the rights-management check admits the owner and
      ReadWriteManage grantees only; the read check admits every grantee. */
  lemma RightsChecks(accessControl: map<(Principal, KeyId), AccessRights>, user: Principal, keyId: KeyId)
    ensures EnsureUserCan(RightsAccessControl(), accessControl, user, keyId, CanSetUserRights).Ok? <==>
      (user == keyId.0 || Stored(accessControl, user, keyId) == Some(ReadWriteManage))
    ensures EnsureUserCan(RightsAccessControl(), accessControl, user, keyId, CanGetUserRights).Ok? <==>
      (user == keyId.0 || Stored(accessControl, user, keyId) == Some(ReadWriteManage))
    ensures EnsureUserCan(RightsAccessControl(), accessControl, user, keyId, CanRead).Ok? <==>
      (user == keyId.0 || (user, keyId) in accessControl)
  {
  }

  // ---------------------------------------------------------------------
  // Read-only operations
  // ---------------------------------------------------------------------

  /** The rights `user` has on `keyId` as a read check reports them. */
  function ReadableRights<T>(ac: AccessControl<T>, accessControl: map<(Principal, KeyId), T>, user: Principal, keyId: KeyId): Option<T>
  {
    var e := EffectiveRights(ac, accessControl, user, keyId);
    if e.Some? && (user == keyId.0 || ac.canRead(e.value)) then e else None
  }

  /** `get_user_rights`: gated by the caller's rights-inspection check,
      then the user's read check turned into an Option. */
  function GetUserRights<T>(ac: AccessControl<T>, accessControl: map<(Principal, KeyId), T>,
                            caller: Principal, keyId: KeyId, user: Principal): (r: Result<Option<T>, string>)
    ensures r.Ok? <==> EnsureUserCan(ac, accessControl, caller, keyId, ac.canGetUserRights).Ok?
    ensures !r.Ok? ==> r == Err(Unauthorized)
    ensures r.Ok? ==> r.value == ReadableRights(ac, accessControl, user, keyId)
  {
    match EnsureUserCan(ac, accessControl, caller, keyId, ac.canGetUserRights)
    case Ok(_) =>
      var read := EnsureUserCan(ac, accessControl, user, keyId, ac.canRead);
      Ok(if read.Ok? then Some(read.value) else None)
    case Err(e) => Err(e)
    case Panic(m) => Panic(m)
  }

  /** `get_shared_user_access_for_key`: gated by the caller's
      rights-inspection check, then every user the key is shared with,
      in principal order, paired with the rights `get_user_rights` reports;
      a user without any panics (`expect("always some access rights")`). */
  function GetSharedUserAccessForKey<T>(ac: AccessControl<T>, idx: Indexes<T>, caller: Principal, keyId: KeyId)
    : (r: Result<seq<(Principal, T)>, string>)
    ensures !EnsureUserCan(ac, idx.accessControl, caller, keyId, ac.canGetUserRights).Ok? ==>
      r == Err(Unauthorized)
    ensures r.Ok? ==> |r.value| == |SharedUsers(idx.sharedKeys, keyId)|
    ensures r.Ok? ==> forall i | 0 <= i < |r.value| ::
      && r.value[i].0 == SharedUsers(idx.sharedKeys, keyId)[i]
      && ReadableRights(ac, idx.accessControl, r.value[i].0, keyId) == Some(r.value[i].1)
  {
    match EnsureUserCan(ac, idx.accessControl, caller, keyId, ac.canGetUserRights)
    case Ok(_) =>
      CollectUserRights(SharedUsers(idx.sharedKeys, keyId),
                        u => GetUserRights(ac, idx.accessControl, caller, keyId, u))
    case Err(e) => Err(e)
    case Panic(m) => Panic(m)
  }

  /** Every stored rights value passes the read capability (true of
      AccessRights, where every variant can read). */
  ghost predicate StoredReadable<T>(ac: AccessControl<T>, accessControl: map<(Principal, KeyId), T>)
  {
    forall g | g in accessControl :: ac.canRead(accessControl[g])
  }

  /** On symmetric indexes whose stored rights all read, an authorized
      caller gets every user the key is shared with, once each, in order,
      with that user's effective rights (the owner's rights for the owner,
      should a manager have granted the owner a row). */
  lemma {:induction false} SharedUserAccessComplete<T>(ac: AccessControl<T>, idx: Indexes<T>, caller: Principal, keyId: KeyId)
    requires Symmetric(idx) && StoredReadable(ac, idx.accessControl)
    requires EnsureUserCan(ac, idx.accessControl, caller, keyId, ac.canGetUserRights).Ok?
    ensures GetSharedUserAccessForKey(ac, idx, caller, keyId).Ok?
    ensures forall i | 0 <= i < |GetSharedUserAccessForKey(ac, idx, caller, keyId).value| ::
      Some(GetSharedUserAccessForKey(ac, idx, caller, keyId).value[i].1)
        == EffectiveRights(ac, idx.accessControl, GetSharedUserAccessForKey(ac, idx, caller, keyId).value[i].0, keyId)
  {
    var users := SharedUsers(idx.sharedKeys, keyId);
    var lookup := u => GetUserRights(ac, idx.accessControl, caller, keyId, u);
    forall i | 0 <= i < |users| ensures Resolves(lookup(users[i])) {
      assert (keyId, users[i]) in idx.sharedKeys;
      assert users[i] != keyId.0 ==> (users[i], keyId) in idx.accessControl;
    }
  }

  /** A user listed as sharing the key but without stored rights (a broken
      index) makes the listing panic once the caller is authorized. */
  lemma {:induction false} SharedUserAccessPanicsOnBrokenIndex<T>(ac: AccessControl<T>, idx: Indexes<T>,
                                                                  caller: Principal, keyId: KeyId, user: Principal)
    requires EnsureUserCan(ac, idx.accessControl, caller, keyId, ac.canGetUserRights).Ok?
    requires (keyId, user) in idx.sharedKeys && user != keyId.0 && (user, keyId) !in idx.accessControl
    ensures GetSharedUserAccessForKey(ac, idx, caller, keyId).Panic?
  {
    var users := SharedUsers(idx.sharedKeys, keyId);
    var lookup := u => GetUserRights(ac, idx.accessControl, caller, keyId, u);
    assert user in users;
    var k :| 0 <= k < |users| && users[k] == user;
    assert !Resolves(lookup(users[k]));
    var r := CollectUserRights(users, lookup);
    var i :| 0 <= i < |users| && !Resolves(lookup(users[i])) && r == Unresolved(lookup(users[i]));
    assert lookup(users[i]).Ok?;
  }

  // ---------------------------------------------------------------------
  // Derivation input and the encrypted-key request
  // ---------------------------------------------------------------------

  /** The derivation input: the principal's length as one byte (`as u8`
      truncates), the principal's bytes, the key name's bytes. */
  function VetkdInput(principal: Principal, keyName: Bytes): Bytes
  {
    [(|principal| % 256) as uint8] + principal + keyName
  }

  /** Splits a derivation input at its length byte. */
  function ParseVetkdInput(input: Bytes): Option<(Principal, Bytes)>
  {
    if |input| == 0 || 1 + input[0] as int > |input| then None
    else Some((input[1..1 + input[0] as int], input[1 + input[0] as int..]))
  }

  /** `key_id_to_vetkd_input`: builds the input by a push and two extends. */
  method KeyIdToVetkdInput(principal: Principal, keyName: Bytes) returns (input: Bytes)
    ensures input == VetkdInput(principal, keyName)
    ensures |input| == |principal| + 1 + |keyName|
  {
    input := [];
    input := input + [(|principal| % 256) as uint8];
    input := input + principal;
    input := input + keyName;
  }

  /** Principals shorter than 256 bytes (all are) are recovered, together
      with the name, from the input. */
  lemma VetkdInputRoundTrip(principal: Principal, keyName: Bytes)
    requires |principal| < 256
    ensures ParseVetkdInput(VetkdInput(principal, keyName)) == Some((principal, keyName))
  {
    var input := VetkdInput(principal, keyName);
    assert input[0] as int == |principal|;
    assert input[1..1 + |principal|] == principal;
    assert input[1 + |principal|..] == keyName;
  }

  /** So distinct keys never share a derivation input. */
  lemma VetkdInputInjective(p1: Principal, n1: Bytes, p2: Principal, n2: Bytes)
    requires |p1| < 256 && |p2| < 256
    requires VetkdInput(p1, n1) == VetkdInput(p2, n2)
    ensures p1 == p2 && n1 == n2
  {
    VetkdInputRoundTrip(p1, n1);
    VetkdInputRoundTrip(p2, n2);
  }

  /** The part of `VetKDDeriveKeyRequest` the key manager decides: the
      input and the transport public key. */
  datatype DeriveKeyRequest = DeriveKeyRequest(input: Bytes, transportPublicKey: Bytes)

  /** `get_encrypted_vetkey` up to the system call: the caller's read check,
      then the request it sends. */
  function GetEncryptedVetkey<T>(ac: AccessControl<T>, accessControl: map<(Principal, KeyId), T>,
                                 caller: Principal, keyId: KeyId, transportKey: ByteBuf): (r: Result<DeriveKeyRequest, string>)
    ensures r.Ok? <==> EnsureUserCan(ac, accessControl, caller, keyId, ac.canRead).Ok?
    ensures !r.Ok? ==> r == Err(Unauthorized)
    ensures r.Ok? && |keyId.0| < 256 ==> ParseVetkdInput(r.value.input) == Some((keyId.0, keyId.1))
    ensures r.Ok? ==> ByteBufFromVec(r.value.transportPublicKey) == transportKey
  {
    match EnsureUserCan(ac, accessControl, caller, keyId, ac.canRead)
    case Ok(_) =>
      var request := DeriveKeyRequest(VetkdInput(keyId.0, keyId.1), VecFromByteBuf(transportKey));
      assert |keyId.0| < 256 ==> ParseVetkdInput(request.input) == Some((keyId.0, keyId.1)) by {
        if |keyId.0| < 256 {
          VetkdInputRoundTrip(keyId.0, keyId.1);
        }
      }
      Ok(request)
    case Err(e) => Err(e)
    case Panic(m) => Panic(m)
  }

  /** Every authorized caller sends the same input for a key, so all of
      them derive the same key. */
  lemma EncryptedVetkeyInputIndependentOfCaller<T>(ac: AccessControl<T>, accessControl: map<(Principal, KeyId), T>,
                                                   c1: Principal, c2: Principal, keyId: KeyId, t1: ByteBuf, t2: ByteBuf)
    requires GetEncryptedVetkey(ac, accessControl, c1, keyId, t1).Ok?
    requires GetEncryptedVetkey(ac, accessControl, c2, keyId, t2).Ok?
    ensures GetEncryptedVetkey(ac, accessControl, c1, keyId, t1).value.input
         == GetEncryptedVetkey(ac, accessControl, c2, keyId, t2).value.input
  {
  }

  // ---------------------------------------------------------------------
  // The key manager's state and its mutating operations
  // ---------------------------------------------------------------------

  class KeyManager<T> {
    /** The rights type's `AccessControl` implementation. */
    const policy: AccessControl<T>
    var accessControl: map<(Principal, KeyId), T>
    var sharedKeys: set<(KeyId, Principal)>

    function State(): Indexes<T>
      reads this
    {
      Indexes(accessControl, sharedKeys)
    }

    ghost predicate Valid()
      reads this
    {
      Symmetric(State())
    }

    /** `KeyManager::init`: the maps hold whatever their memories already
        hold (empty on first use). */
    constructor Init(policy: AccessControl<T>, storedAccessControl: map<(Principal, KeyId), T>,
                     storedSharedKeys: set<(KeyId, Principal)>)
      ensures this.policy == policy
      ensures accessControl == storedAccessControl && sharedKeys == storedSharedKeys
    {
      this.policy := policy;
      accessControl := storedAccessControl;
      sharedKeys := storedSharedKeys;
    }

    /** `set_user_rights`: a caller who may set rights grants `rights` to
        `user` in both indexes and gets back what `user` held before; the
        owner may not target themselves. */
    method SetUserRights(caller: Principal, keyId: KeyId, user: Principal, rights: T)
      returns (r: Result<Option<T>, string>)
      modifies this
      ensures
        if !EnsureUserCan(policy, old(accessControl), caller, keyId, policy.canSetUserRights).Ok? then
          r == Err(Unauthorized) && State() == old(State())
        else if caller == keyId.0 && caller == user then
          r == Err(CannotChangeOwnerRights) && State() == old(State())
        else
          r == Ok(Stored(old(accessControl), user, keyId)) && State() == Grant(old(State()), keyId, user, rights)
      ensures old(Valid()) ==> Valid()
    {
      var auth := EnsureUserCan(policy, accessControl, caller, keyId, policy.canSetUserRights);
      if auth.Err? {
        return Err(auth.error);
      }
      if caller == keyId.0 && caller == user {
        return Err(CannotChangeOwnerRights);
      }
      ghost var before := State();
      sharedKeys := sharedKeys + {(keyId, user)};
      var previous := Get(accessControl, (user, keyId));
      accessControl := accessControl[(user, keyId) := rights];
      r := Ok(previous);
      if Symmetric(before) {
        GrantKeepsSymmetry(before, keyId, user, rights);
      }
    }

    /** `remove_user`: a caller who may set rights removes `user` from both
        indexes and gets back what `user` held; the owner may not remove
        themselves. */
    method RemoveUser(caller: Principal, keyId: KeyId, user: Principal)
      returns (r: Result<Option<T>, string>)
      modifies this
      ensures
        if !EnsureUserCan(policy, old(accessControl), caller, keyId, policy.canSetUserRights).Ok? then
          r == Err(Unauthorized) && State() == old(State())
        else if caller == user && caller == keyId.0 then
          r == Err(CannotRemoveOwner) && State() == old(State())
        else
          r == Ok(Stored(old(accessControl), user, keyId)) && State() == Revoke(old(State()), keyId, user)
      ensures old(Valid()) ==> Valid()
    {
      var auth := EnsureUserCan(policy, accessControl, caller, keyId, policy.canSetUserRights);
      if auth.Err? {
        return Err(auth.error);
      }
      if caller == user && caller == keyId.0 {
        return Err(CannotRemoveOwner);
      }
      ghost var before := State();
      sharedKeys := sharedKeys - {(keyId, user)};
      var previous := Get(accessControl, (user, keyId));
      accessControl := accessControl - {(user, keyId)};
      r := Ok(previous);
      if Symmetric(before) {
        RevokeKeepsSymmetry(before, keyId, user);
      }
    }
  }

  // ---------------------------------------------------------------------
  // Call sequences
  // ---------------------------------------------------------------------

  /** The owner grants a new user the same rights twice: the first call
      reports no previous rights, the second the rights of the first, and
      the indexes end as after one grant. */
  method OwnerGrantsTwice<T>(km: KeyManager<T>, keyId: KeyId, user: Principal, rights: T)
    returns (first: Result<Option<T>, string>, second: Result<Option<T>, string>)
    requires user != keyId.0 && (user, keyId) !in km.accessControl
    modifies km
    ensures first == Ok(None) && second == Ok(Some(rights))
    ensures km.State() == Grant(old(km.State()), keyId, user, rights)
  {
    first := km.SetUserRights(keyId.0, keyId, user, rights);
    second := km.SetUserRights(keyId.0, keyId, user, rights);
    GrantIdempotent(old(km.State()), keyId, user, rights);
  }

  /** An authorized caller grants a new user rights and then removes the
      user: the removal reports the granted rights, and both indexes are
      back where they started. */
  method GrantThenRemove<T>(km: KeyManager<T>, caller: Principal, keyId: KeyId, user: Principal, rights: T)
    returns (granted: Result<Option<T>, string>, removed: Result<Option<T>, string>)
    requires km.Valid() && (user, keyId) !in km.accessControl && caller != user
    requires EnsureUserCan(km.policy, km.accessControl, caller, keyId, km.policy.canSetUserRights).Ok?
    modifies km
    ensures granted == Ok(None) && removed == Ok(Some(rights))
    ensures km.State() == old(km.State())
  {
    granted := km.SetUserRights(caller, keyId, user, rights);
    removed := km.RemoveUser(caller, keyId, user);
    RevokeUndoesGrant(old(km.State()), keyId, user, rights);
  }

  /** The owner guard looks at the caller too: a manager who is not the
      owner can store a row for the owner, and the owner's own checks
      still answer with the owner's rights. */
  method ManagerStoresOwnerRow<T>(km: KeyManager<T>, manager: Principal, keyId: KeyId, rights: T, allowed: T -> bool)
    returns (r: Result<Option<T>, string>)
    requires manager != keyId.0
    requires EnsureUserCan(km.policy, km.accessControl, manager, keyId, km.policy.canSetUserRights).Ok?
    modifies km
    ensures r.Ok? && Stored(km.accessControl, keyId.0, keyId) == Some(rights)
    ensures EnsureUserCan(km.policy, km.accessControl, keyId.0, keyId, allowed) == Ok(km.policy.ownerRights)
  {
    r := km.SetUserRights(manager, keyId, keyId.0, rights);
  }
}
