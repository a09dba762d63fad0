/** The two indexes both key managers keep over the same facts, the
    lockstep steps that update them, and the enumerations both versions
    run over them.

    - access control: (grantee, key id) -> rights
    - shared keys:    set of (key id, grantee) */
module KeyIndexes {
  import opened Wrappers
  import opened Types
  import opened KeyOrder

  datatype Indexes<T> = Indexes(
    accessControl: map<(Principal, KeyId), T>,
    sharedKeys: set<(KeyId, Principal)>)

  /** Index symmetry: (k, u) is a shared key exactly when (u, k) has
      stored rights. */
  ghost predicate Symmetric<T>(idx: Indexes<T>)
  {
    && (forall e | e in idx.sharedKeys :: (e.1, e.0) in idx.accessControl)
    && (forall g | g in idx.accessControl :: (g.1, g.0) in idx.sharedKeys)
  }

  /** The rights stored for `user` on `keyId`, if any. */
  function Stored<T>(accessControl: map<(Principal, KeyId), T>, user: Principal, keyId: KeyId): Option<T>
  {
    Get(accessControl, (user, keyId))
  }

  /** The index update of a grant: `shared_keys.insert((key_id, user), ())`
      then `access_control.insert((user, key_id), rights)`.  The grant
      returns `Stored(idx.accessControl, user, keyId)`, the value `insert`
      replaces. */
  function Grant<T>(idx: Indexes<T>, keyId: KeyId, user: Principal, rights: T): Indexes<T>
  {
    Indexes(idx.accessControl[(user, keyId) := rights], idx.sharedKeys + {(keyId, user)})
  }

  /** The index update of a revocation: `shared_keys.remove(&(key_id, user))`
      then `access_control.remove(&(user, key_id))`.  The revocation returns
      `Stored(idx.accessControl, user, keyId)`, the value `remove` takes out. */
  function Revoke<T>(idx: Indexes<T>, keyId: KeyId, user: Principal): Indexes<T>
  {
    Indexes(idx.accessControl - {(user, keyId)}, idx.sharedKeys - {(keyId, user)})
  }

  lemma GrantKeepsSymmetry<T>(idx: Indexes<T>, keyId: KeyId, user: Principal, rights: T)
    requires Symmetric(idx)
    ensures Symmetric(Grant(idx, keyId, user, rights))
  {
  }

  lemma RevokeKeepsSymmetry<T>(idx: Indexes<T>, keyId: KeyId, user: Principal)
    requires Symmetric(idx)
    ensures Symmetric(Revoke(idx, keyId, user))
  {
  }

  /** After a grant the user holds exactly the granted rights and the key is
      shared with them; every other entry of both indexes is as before. */
  lemma GrantEffect<T>(idx: Indexes<T>, keyId: KeyId, user: Principal, rights: T)
    ensures Stored(Grant(idx, keyId, user, rights).accessControl, user, keyId) == Some(rights)
    ensures (keyId, user) in Grant(idx, keyId, user, rights).sharedKeys
    ensures forall u, k | (u, k) != (user, keyId) ::
      Stored(Grant(idx, keyId, user, rights).accessControl, u, k) == Stored(idx.accessControl, u, k)
    ensures forall k, u | (k, u) != (keyId, user) ::
      ((k, u) in Grant(idx, keyId, user, rights).sharedKeys <==> (k, u) in idx.sharedKeys)
  {
  }

  /** After a revocation the user holds nothing on the key and the key is no
      longer shared with them; every other entry is as before. */
  lemma RevokeEffect<T>(idx: Indexes<T>, keyId: KeyId, user: Principal)
    ensures Stored(Revoke(idx, keyId, user).accessControl, user, keyId) == None
    ensures (keyId, user) !in Revoke(idx, keyId, user).sharedKeys
    ensures forall u, k | (u, k) != (user, keyId) ::
      Stored(Revoke(idx, keyId, user).accessControl, u, k) == Stored(idx.accessControl, u, k)
    ensures forall k, u | (k, u) != (keyId, user) ::
      ((k, u) in Revoke(idx, keyId, user).sharedKeys <==> (k, u) in idx.sharedKeys)
  {
  }

  /** Granting the same rights twice is the same as granting them once, and
      the second grant reports the first grant's rights as the previous
      value. */
  lemma GrantIdempotent<T>(idx: Indexes<T>, keyId: KeyId, user: Principal, rights: T)
    ensures Grant(Grant(idx, keyId, user, rights), keyId, user, rights) == Grant(idx, keyId, user, rights)
    ensures Stored(Grant(idx, keyId, user, rights).accessControl, user, keyId) == Some(rights)
  {
    var once := Grant(idx, keyId, user, rights);
    assert once.accessControl[(user, keyId) := rights] == once.accessControl;
    assert once.sharedKeys + {(keyId, user)} == once.sharedKeys;
  }

  /** A revocation after a first-time grant restores both indexes exactly,
      and reports the granted rights as the removed value. */
  lemma {:induction false} RevokeUndoesGrant<T>(idx: Indexes<T>, keyId: KeyId, user: Principal, rights: T)
    requires Symmetric(idx)
    requires (user, keyId) !in idx.accessControl
    ensures Revoke(Grant(idx, keyId, user, rights), keyId, user) == idx
    ensures Stored(Grant(idx, keyId, user, rights).accessControl, user, keyId) == Some(rights)
  {
    var after := Revoke(Grant(idx, keyId, user, rights), keyId, user);
    assert (keyId, user) !in idx.sharedKeys;
    assert after.accessControl == idx.accessControl;
    assert after.sharedKeys == idx.sharedKeys;
  }

  // ---------------------------------------------------------------------
  // Enumerations shared by both versions
  // ---------------------------------------------------------------------

  /** `access_control.range((caller, (min, min))..).take_while(first == caller)
      .map(key_id)`: the key ids the caller holds rights on, in key order,
      each once. */
  function AccessibleKeyIds<T>(accessControl: map<(Principal, KeyId), T>, caller: Principal): (ids: seq<KeyId>)
    ensures forall k :: k in ids <==> (caller, k) in accessControl
    ensures StrictlyIncreasing(ids, KeyIdLe)
  {
    SortedKeyIds(set g | g in accessControl && g.0 == caller :: g.1)
  }

  /** `shared_keys.range((key_id, min)..).take_while(first == key_id)
      .map(user)`: the users a key is shared with, in principal order, each
      once. */
  function SharedUsers(sharedKeys: set<(KeyId, Principal)>, keyId: KeyId): (users: seq<Principal>)
    ensures forall u :: u in users <==> (keyId, u) in sharedKeys
    ensures StrictlyIncreasing(users, BytesLe)
  {
    SortedPrincipals(set e | e in sharedKeys && e.0 == keyId :: e.1)
  }

  /** A lookup of a user's rights succeeded and found rights. */
  predicate Resolves<T>(x: Result<Option<T>, string>)
  {
    x.Ok? && x.value.Some?
  }

  /** What collecting stops with at a lookup that did not resolve: its error,
      its panic, or the panic of `expect("always some access rights")`. */
  function Unresolved<T>(x: Result<Option<T>, string>): Result<seq<(Principal, T)>, string>
  {
    match x
    case Ok(_) => Panic("always some access rights")
    case Err(e) => Err(e)
    case Panic(m) => Panic(m)
  }

  /** `users.into_iter().map(|u| get_user_rights(u).map(|o| (u, o.expect(..))))
      .collect::<Result<Vec<_>, _>>()`: pairs every user with the rights
      the lookup finds, stopping at the first lookup that does not resolve. */
  function CollectUserRights<T>(users: seq<Principal>, lookup: Principal -> Result<Option<T>, string>)
    : (r: Result<seq<(Principal, T)>, string>)
    ensures r.Ok? <==> forall i | 0 <= i < |users| :: Resolves(lookup(users[i]))
    ensures r.Ok? ==> |r.value| == |users|
    ensures r.Ok? ==> forall i | 0 <= i < |users| :: r.value[i] == (users[i], lookup(users[i]).value.value)
    ensures !r.Ok? ==> exists i | 0 <= i < |users| ::
      && (forall j | 0 <= j < i :: Resolves(lookup(users[j])))
      && !Resolves(lookup(users[i]))
      && r == Unresolved(lookup(users[i]))
    decreases |users|
  {
    if users == [] then Ok([])
    else
      var first := lookup(users[0]);
      if !Resolves(first) then Unresolved(first)
      else
        match CollectUserRights(users[1..], lookup)
        case Ok(rest) => Ok([(users[0], first.value.value)] + rest)
        case other => other
  }
}
