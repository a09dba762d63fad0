# KeyManager access control, modelled in Dafny

The KeyManager is the access-control registry of the vetKD devkit. Each key is
identified by a `KeyId`, which is its owner's principal plus a name of at most
32 bytes. The owner may share the key with other principals at one of three
rights levels: Read, ReadWrite and ReadWriteManage.

The registry keeps two indexes over the same facts:

- `access_control`: (grantee, key id) to rights;
- `shared_keys`: the set of (key id, grantee).

Every operation on a given key id, except `is_key_shared`, first runs a policy
check; listing a caller's own key ids needs none. The owner passes by
identity, with the owner's rights and without any lookup. Anyone else passes only with a
stored entry whose rights have the required capability. `set_user_rights` and
`remove_user` update both indexes in lockstep, and each returns the rights the
user held before.

The registry exists in two versions, and both are modelled:

- `GenericKeyManager` (generic_key_manager.dfy) models the generic
  `KeyManager<T: AccessControl>`.
  - Its two maps are the fields of a class. The class's `SetUserRights` and
    `RemoveUser` update them in place.
  - The read-only operations are functions of the maps.
  - The `AccessControl` trait is passed as a value holding four capability
    predicates and the owner's rights.
- `CdkKeyManager` (cdk_key_manager.dfy) models the older global key manager
  over `AccessRights`.
  - The global `KEY_MANAGER` cell is an `Option` field of a class.
  - `try_init` fills that field once.
  - `with_borrow` and `with_borrow_mut` fail with "memory not initialized"
    while the field is empty.

The other modules hold what both versions share:

- `Types` (types.dfy) models the `AccessRights` enum, its one-byte `Storable`
  encoding, its order and capability predicates, and `ByteBuf`.
- `KeyIndexes` (key_indexes.dfy) models the two indexes and their symmetry
  invariant. It has:
  - `Grant` and `Revoke`, the lockstep updates of both indexes;
  - the two range enumerations;
  - the collection of user rights that stops at the first failure.
- `KeyOrder` (key_order.dfy) gives the key order of the ordered maps. A range
  enumeration is modelled as the matching keys listed in strictly increasing
  order.
- `Wrappers` (wrappers.dfy) holds `Option` and `Result`. A `Result` is `Ok`,
  `Err`, or `Panic` for a Rust `unwrap` or `expect` that fails.

Three facts about the code that are easy to misread:

- The owner guard of `set_user_rights` and `remove_user` fires only when
  `caller == owner == user` (backend/rs/ic_vetkeys/src/key_manager/mod.rs,
  lines 198 and 215). It does not fire for every grantee who is the owner.
  - A manager who is not the owner can therefore store a row for the owner,
    so "the owner never appears in either index" is not an invariant of the
    code (`GenericKeyManager.ManagerStoresOwnerRow`).
  - Such a row never changes what the owner may do
    (`GenericKeyManager.OwnerRowIgnored`).
- Listings are not in insertion order. The code enumerates a range of an
  ordered map, so they come out in key order.
- The older version gates `get_user_rights` and
  `get_shared_user_access_for_key` on read access. The generic version gates
  them on `can_get_user_rights` (`CdkKeyManager.RightsInspectionGateDiffers`).

## Model

| member | source | states |
|---|---|---|
| Types.Discriminant | backend/ic_vetkeys/src/types.rs:33-37 | the discriminant of every variant is at most 2 |
| Types.FromRepr | backend/ic_vetkeys/src/types.rs:30-37 | `from_repr` yields a variant exactly for 0, 1 and 2, and the variant it yields has that discriminant |
| Types.ToBytes | backend/ic_vetkeys/src/types.rs:40-42 | the encoding is exactly one byte, and that byte is the discriminant of the encoded variant |
| Types.FromBytes | backend/ic_vetkeys/src/types.rs:44-47 | defined only on a single byte in {0, 1, 2} (anything else panics in the source); re-encoding the decoded value gives back the input |
| Types.FromBytesToBytes | backend/ic_vetkeys/src/types.rs:39-47 | decoding inverts encoding for every variant |
| Types.ToBytesInjective | backend/ic_vetkeys/src/types.rs:40-42 | distinct rights never encode to the same bytes |
| Types.CanRead | backend/ic_vetkeys/src/types.rs:56-61 | holds of every variant, i.e. of every value at or above Read |
| Types.CanWrite | backend/ic_vetkeys/src/types.rs:63-68 | holds exactly of the values at or above ReadWrite |
| Types.CanGetUserRights | backend/ic_vetkeys/src/types.rs:70-72 | holds exactly of ReadWriteManage |
| Types.CanSetUserRights | backend/ic_vetkeys/src/types.rs:74-76 | holds exactly of ReadWriteManage |
| Types.OwnerRights | backend/ic_vetkeys/src/types.rs:78-80 | the owner's rights are the top of the order and satisfy all four capability predicates |
| Types.LeTotalOrder | backend/ic_vetkeys/src/types.rs:18-37 | the derived order, by discriminant, is reflexive, total, antisymmetric and transitive |
| Types.CapabilitiesUpwardClosed | backend/ic_vetkeys/src/types.rs:55-81 | raising the rights never loses a capability |
| Types.RightsAccessControl | backend/ic_vetkeys/src/types.rs:55-81 | the `AccessControl` implementation: every value can read; only ReadWriteManage can set user rights; the owner's rights can get and set user rights |
| Types.NewByteBuf | backend/ic_vetkeys/src/types.rs:110-114 | a new buffer holds no bytes |
| Types.ByteBufFromVec | backend/ic_vetkeys/src/types.rs:116-120 | converting the buffer back to a vector gives the original bytes |
| Types.ByteBufConversionsInverse | backend/ic_vetkeys/src/types.rs:116-126 | the two `From` conversions are mutually inverse |
| KeyIndexes.GrantKeepsSymmetry | backend/rs/ic_vetkeys/src/key_manager/mod.rs:201-202 | inserting into both indexes preserves their symmetry |
| KeyIndexes.RevokeKeepsSymmetry | backend/rs/ic_vetkeys/src/key_manager/mod.rs:219-220 | removing from both indexes preserves their symmetry |
| KeyIndexes.GrantEffect | backend/rs/ic_vetkeys/src/key_manager/mod.rs:201-202 | after a grant the user holds exactly the granted rights and the key is shared with them; every other entry of both indexes is unchanged |
| KeyIndexes.RevokeEffect | backend/rs/ic_vetkeys/src/key_manager/mod.rs:219-220 | after a removal the user holds nothing on the key and it is not shared with them; every other entry is unchanged |
| KeyIndexes.GrantIdempotent | cdk/encrypted_maps/tests/tests.rs:61-73 | granting the same rights twice equals granting once, and the second grant reports the first grant's rights as the previous value |
| KeyIndexes.RevokeUndoesGrant | cdk/encrypted_maps/tests/tests.rs:85-97 | on symmetric indexes, removing a user after a first-time grant restores both indexes exactly and reports the granted rights |
| KeyIndexes.AccessibleKeyIds | backend/rs/ic_vetkeys/src/key_manager/mod.rs:89-95 | `get_accessible_shared_key_ids`: a key id is listed iff the caller has a stored row for it; the list is strictly increasing in key order, so it has no duplicates |
| KeyIndexes.SharedUsers | backend/rs/ic_vetkeys/src/key_manager/mod.rs:105-110 | a user is listed iff the key is shared with them; strictly increasing in principal order |
| KeyIndexes.CollectUserRights | backend/rs/ic_vetkeys/src/key_manager/mod.rs:112-120 | the collection succeeds iff every user's lookup finds rights, and then pairs each user with those rights in order; otherwise it ends with the error or panic of the first failing lookup, or the panic of `expect("always some access rights")` |
| GenericKeyManager.EnsureUserCan | backend/rs/ic_vetkeys/src/key_manager/mod.rs:225-285 | all four `ensure_user_can_*` checks: the owner gets the owner's rights whatever is stored; anyone else passes iff they have a stored row whose rights have the capability, and then gets those rights; every failure is `Err("unauthorized")` |
| GenericKeyManager.EnsureUserCanIsEffectiveRights | backend/rs/ic_vetkeys/src/key_manager/mod.rs:225-285 | a check passes iff the user's effective rights (the owner's by identity, anyone else's as stored) have the capability, and it returns those rights |
| GenericKeyManager.OwnerRowIgnored | backend/rs/ic_vetkeys/src/key_manager/mod.rs:225-229 | a row stored for the owner, or its absence, never changes any check of the owner |
| GenericKeyManager.RightsChecks | backend/rs/ic_vetkeys/src/key_manager/mod.rs:251-285 | with AccessRights, setting and inspecting rights needs ownership or a stored ReadWriteManage; reading needs ownership or any stored row |
| GenericKeyManager.GetUserRights | backend/rs/ic_vetkeys/src/key_manager/mod.rs:177-185 | succeeds iff the caller passes the rights-inspection check, and then reports the user's rights as the read check sees them; otherwise `Err("unauthorized")` |
| GenericKeyManager.GetSharedUserAccessForKey | backend/rs/ic_vetkeys/src/key_manager/mod.rs:98-121 | unauthorized callers get `Err("unauthorized")`; a success lists exactly the shared users, in order, each with the rights the read check reports |
| GenericKeyManager.SharedUserAccessComplete | backend/rs/ic_vetkeys/src/key_manager/mod.rs:98-121 | on symmetric indexes whose rights all read, an authorized caller always succeeds and each user is paired with their effective rights |
| GenericKeyManager.SharedUserAccessPanicsOnBrokenIndex | backend/rs/ic_vetkeys/src/key_manager/mod.rs:112-120 | a user listed as sharing the key but without a stored row makes the listing panic |
| GenericKeyManager.KeyIdToVetkdInput | backend/rs/ic_vetkeys/src/key_manager/mod.rs:305-311 | the push-and-extend construction yields the length byte, the principal and the name, of length `\|p\| + 1 + \|n\|` |
| GenericKeyManager.VetkdInputRoundTrip | backend/rs/ic_vetkeys/src/key_manager/mod.rs:305-311 | for principals shorter than 256 bytes, the principal and the name are recovered from the input |
| GenericKeyManager.VetkdInputInjective | backend/rs/ic_vetkeys/src/key_manager/mod.rs:305-311 | distinct keys (principals shorter than 256 bytes) never share a derivation input |
| GenericKeyManager.GetEncryptedVetkey | backend/rs/ic_vetkeys/src/key_manager/mod.rs:147-162 | a request is built iff the caller can read, otherwise `Err("unauthorized")`; its input decodes back to the key id, and it carries the transport key |
| GenericKeyManager.EncryptedVetkeyInputIndependentOfCaller | backend/rs/ic_vetkeys/src/key_manager/mod.rs:155-158 | every authorized caller sends the same derivation input for a key |
| GenericKeyManager.KeyManager.Init | backend/rs/ic_vetkeys/src/key_manager/mod.rs:72-86 | the manager starts with the maps its memories hold |
| GenericKeyManager.KeyManager.SetUserRights | backend/rs/ic_vetkeys/src/key_manager/mod.rs:189-203 | an unauthorized caller, or the owner targeting themselves, gets the matching error and both indexes are unchanged; otherwise both indexes take the grant, the call returns the previous rights, and index symmetry is preserved |
| GenericKeyManager.KeyManager.RemoveUser | backend/rs/ic_vetkeys/src/key_manager/mod.rs:207-221 | an unauthorized caller, or the owner removing themselves, gets the matching error and both indexes are unchanged; otherwise the user leaves both indexes, the call returns the removed rights, and index symmetry is preserved |
| GenericKeyManager.OwnerGrantsTwice | cdk/encrypted_maps/tests/tests.rs:52-74 | the owner's first grant to a new user returns no previous rights and the second returns the first grant's rights |
| GenericKeyManager.GrantThenRemove | cdk/encrypted_maps/tests/tests.rs:76-98 | a grant to a new user returns no previous rights, the following removal returns the granted rights, and both indexes are restored |
| GenericKeyManager.ManagerStoresOwnerRow | backend/rs/ic_vetkeys/src/key_manager/mod.rs:196-202 | a manager who is not the owner succeeds in storing a row for the owner, and every check of the owner still gives the owner's rights |
| CdkKeyManager.WithBorrow | cdk/key_manager/src/lib.rs:93-100 | runs the closure on the key manager once it is initialized, and fails with "memory not initialized" before |
| CdkKeyManager.EnsureUserCanRead | cdk/key_manager/src/lib.rs:269-282 | the owner gets ReadWriteManage without a lookup; a non-owner gets any stored rights or `Err("unauthorized")`, and panics before initialization |
| CdkKeyManager.EnsureUserCanManage | cdk/key_manager/src/lib.rs:286-298 | the owner gets ReadWriteManage; a non-owner passes only with stored ReadWriteManage, otherwise `Err("unauthorized")`, and panics before initialization |
| CdkKeyManager.ReadCheckAgreesWithGeneric | cdk/key_manager/src/lib.rs:269-282 | once initialized, the read check equals the generic read check with AccessRights |
| CdkKeyManager.ManageCheckAgreesWithGeneric | cdk/key_manager/src/lib.rs:286-298 | once initialized, the manage check equals the generic rights-setting check with AccessRights |
| CdkKeyManager.GetUserRights | cdk/key_manager/src/lib.rs:207-214 | gated by the caller's read check; on success reports the user's effective rights; panics before initialization unless both principals are the owner |
| CdkKeyManager.GetAccessibleSharedKeyIds | cdk/key_manager/src/lib.rs:113-125 | panics exactly before initialization; otherwise lists exactly the caller's key ids, strictly increasing |
| CdkKeyManager.GetSharedUserAccessForKey | cdk/key_manager/src/lib.rs:128-152 | a caller who cannot read gets `Err("unauthorized")`; before initialization the owner gets "memory not initialized" and anyone else panics; a success lists exactly the shared users, in order, with their effective rights |
| CdkKeyManager.SharedUserAccessComplete | cdk/key_manager/src/lib.rs:128-152 | on symmetric indexes, a caller who can read always gets the listing |
| CdkKeyManager.IsKeyShared | cdk/key_manager/src/lib.rs:255-265 | fails exactly before initialization; otherwise true iff the key is shared with some user |
| CdkKeyManager.IsKeySharedIffGranted | cdk/key_manager/src/lib.rs:255-265 | on symmetric indexes, a key is shared iff some user has a stored row for it |
| CdkKeyManager.DerivationId | cdk/key_manager/src/lib.rs:180-186 | the derivation id is the owner's bytes followed by the name's bytes |
| CdkKeyManager.DerivationIdCollides | cdk/key_manager/src/lib.rs:180-186 | two different key ids can have the same derivation id |
| CdkKeyManager.GetEncryptedVetkey | cdk/key_manager/src/lib.rs:173-193 | a request is built iff the caller can read (otherwise `Err("unauthorized")` once initialized); it carries the derivation id, the path `[b"key_manager"]` and the transport key |
| CdkKeyManager.RightsInspectionGateDiffers | cdk/key_manager/src/lib.rs:207-214 | a ReadWrite grantee can read another user's rights in this version, but the generic version refuses them |
| CdkKeyManager.GlobalKeyManager.constructor | cdk/key_manager/src/lib.rs:59-61 | the global cell starts empty |
| CdkKeyManager.GlobalKeyManager.TryInit | cdk/key_manager/src/lib.rs:75-91 | the first call stores a key manager over the two memories; any later call returns `AlreadyInitialized` and changes nothing |
| CdkKeyManager.GlobalKeyManager.WithBorrowMut | cdk/key_manager/src/lib.rs:102-109 | before initialization: "memory not initialized" and no change; after: the closure's new key manager is kept and its result returned |
| CdkKeyManager.GlobalKeyManager.SetUserRights | cdk/key_manager/src/lib.rs:218-233 | the manage check's panic or error, then the owner guard, then "memory not initialized", each leaving the cell unchanged; otherwise the grant in both maps, returning the previous rights; index symmetry is preserved |
| CdkKeyManager.GlobalKeyManager.RemoveUser | cdk/key_manager/src/lib.rs:237-252 | the same sequence with "cannot remove key owner", then the removal from both maps, returning the removed rights; index symmetry is preserved |
| CdkKeyManager.InitTwice | cdk/key_manager/src/lib.rs:75-91 | the first initialization succeeds and the second returns `AlreadyInitialized`, keeping the first key manager, on which the queries then succeed |
| CdkKeyManager.GrantTwiceThenRemove | cdk/key_manager/src/lib.rs:218-252 | the owner's two grants to a new user return no previous rights and then the granted rights; the removal returns the granted rights and restores the cell |

## Left out

- The asynchronous vetKD system calls are left out. This covers `vetkd_public_key`, `vetkd_derive_key` and `vetkd_encrypted_key`, their futures and the `expect` on their replies, and `get_vetkey_verification_key` in both versions. They are foreign calls. Only the authorization check and the request that is sent are modelled.
- The request fields fixed by configuration are left out: the key id `insecure_test_key_1`, the domain separator context and the system canister id (including the testing override).
- `StableBTreeMap`, `StableCell` and the virtual memories are modelled as a Dafny map and a set. The maps' persistence across upgrades is given to the constructors as their initial contents.
- The key order of the stable maps is assumed to be lexicographic on the principal's and the name's bytes, with tuples compared by their first component and then their second. The principal and blob comparison code is not part of this model. The ranges start at the empty principal and the empty name, which are least in this order, so `range(..).take_while(..)` yields every matching key. The listed sets do not depend on the order; the sequence does.
- `StorableDerivationPath` and the `Storable` implementation of `ByteBuf` are left out. They are CBOR and Candid serialization done by libraries.
- `with_borrow` and `with_borrow_mut` format a closure's error with `format!("{e:?}")`. This is left out because every closure in the source returns `Ok`.
- The thread-local `RefCell` becomes a class field. Borrow conflicts cannot happen in the sequential source and are not modelled.
- A panic in the source traps the call and rolls back its state. The model reports `Panic` and leaves the state unchanged; every panic happens before any update.
- Types.FromBytes: a byte string that is not a single byte in {0, 1, 2} makes the source panic; this is a precondition of the model.
- The plain record types of the basic IBE example and the encrypted-maps store exercised by the tests are not part of this model. The tests serve only as evidence for the return values of `set_user_rights` and `remove_user`.
- The older version's `get_shared_user_access_for_key` passes a "memory not initialized" error through a second `format!("{e:?}")`. The model returns the plain message, as CdkKeyManager.GetSharedUserAccessForKey states.

## Findings

| source | as written | input that shows it | evidently intended | confidence | as-written member | corrected member |
|---|---|---|---|---|---|---|
| cdk/key_manager/src/lib.rs:180-186 | the derivation id is the owner's bytes directly followed by the name's bytes, with no separator or length | owner `[1, 2]` with name `[3]`, and owner `[1]` with name `[2, 3]`, both give `[1, 2, 3]`, so both keys derive the same vetkey | distinct key ids give distinct derivation inputs; the generic version prefixes the principal's length (mod.rs:305-311) | medium, not executed | CdkKeyManager.DerivationIdCollides | GenericKeyManager.VetkdInputInjective |
