/** The shared types of the key manager: principals and key ids as bytes,
    the three-level AccessRights lattice with its one-byte storage encoding,
    the AccessControl capability interface, and ByteBuf. */
module Types {
  import opened Wrappers

  newtype uint8 = x: int | 0 <= x < 256

  type Bytes = seq<uint8>

  /** A principal, as the bytes of its slice. */
  type Principal = Bytes

  /** KeyName is a `Blob<32>`: at most 32 bytes. */
  type KeyName = n: Bytes | |n| <= 32

  /** A key is named by its owner and a name chosen by the owner. */
  type KeyId = (Principal, KeyName)

  // ---------------------------------------------------------------------
  // AccessRights
  // ---------------------------------------------------------------------

  /** `#[repr(u8)] enum AccessRights { Read = 0, ReadWrite = 1, ReadWriteManage = 2 }` */
  datatype AccessRights = Read | ReadWrite | ReadWriteManage

  /** `*self as u8`: the explicit discriminant. */
  function Discriminant(r: AccessRights): (d: uint8)
    ensures d <= 2
  {
    match r
    case Read => 0
    case ReadWrite => 1
    case ReadWriteManage => 2
  }

  /** `AccessRights::from_repr`: the variant with the given discriminant. */
  function FromRepr(v: uint8): (r: Option<AccessRights>)
    ensures r.Some? <==> v <= 2
    ensures r.Some? ==> Discriminant(r.value) == v
  {
    if v == 0 then Some(Read)
    else if v == 1 then Some(ReadWrite)
    else if v == 2 then Some(ReadWriteManage)
    else None
  }

  /** `Storable::to_bytes`: a single byte holding the discriminant. */
  function ToBytes(r: AccessRights): (b: Bytes)
    ensures |b| == 1 && FromRepr(b[0]) == Some(r)
  {
    [Discriminant(r)]
  }

  /** `Storable::from_bytes`.  The source unwraps both the conversion to a
      one-byte array and `from_repr`, so anything but a single byte in
      {0, 1, 2} panics; that is this function's precondition. */
  function FromBytes(b: Bytes): (r: AccessRights)
    requires |b| == 1 && FromRepr(b[0]).Some?
    ensures ToBytes(r) == b
  {
    FromRepr(b[0]).value
  }

  /** Decoding inverts encoding for every variant. */
  lemma FromBytesToBytes(r: AccessRights)
    ensures FromBytes(ToBytes(r)) == r
  {
  }

  /** The encoding is injective: distinct rights are stored as distinct bytes. */
  lemma ToBytesInjective(a: AccessRights, b: AccessRights)
    requires ToBytes(a) == ToBytes(b)
    ensures a == b
  {
    FromBytesToBytes(a);
    FromBytesToBytes(b);
  }

  /** The derived `PartialOrd`/`Ord`: variants compare by discriminant,
      Read < ReadWrite < ReadWriteManage. */
  predicate Le(a: AccessRights, b: AccessRights)
  {
    Discriminant(a) <= Discriminant(b)
  }

  predicate CanRead(r: AccessRights)
    ensures CanRead(r) <==> Le(Read, r)
  {
    r.Read? || r.ReadWrite? || r.ReadWriteManage?
  }

  predicate CanWrite(r: AccessRights)
    ensures CanWrite(r) <==> Le(ReadWrite, r)
  {
    r.ReadWrite? || r.ReadWriteManage?
  }

  predicate CanGetUserRights(r: AccessRights)
    ensures CanGetUserRights(r) <==> Le(ReadWriteManage, r)
  {
    r.ReadWriteManage?
  }

  predicate CanSetUserRights(r: AccessRights)
    ensures CanSetUserRights(r) <==> Le(ReadWriteManage, r)
  {
    r.ReadWriteManage?
  }

  /** The rights an owner has over their own keys: the top of the order,
      and every capability predicate holds of it. */
  function OwnerRights(): (o: AccessRights)
    ensures forall r :: Le(r, o)
    ensures CanRead(o) && CanWrite(o) && CanGetUserRights(o) && CanSetUserRights(o)
  {
    ReadWriteManage
  }

  /** The order is a total order. */
  lemma LeTotalOrder(a: AccessRights, b: AccessRights, c: AccessRights)
    ensures Le(a, a)
    ensures Le(a, b) || Le(b, a)
    ensures Le(a, b) && Le(b, a) ==> a == b
    ensures Le(a, b) && Le(b, c) ==> Le(a, c)
  {
  }

  /** Every capability predicate is upward closed: more rights never
      lose a capability. */
  lemma CapabilitiesUpwardClosed(a: AccessRights, b: AccessRights)
    requires Le(a, b)
    ensures CanRead(a) ==> CanRead(b)
    ensures CanWrite(a) ==> CanWrite(b)
    ensures CanGetUserRights(a) ==> CanGetUserRights(b)
    ensures CanSetUserRights(a) ==> CanSetUserRights(b)
  {
  }

  // ---------------------------------------------------------------------
  // The AccessControl interface
  // ---------------------------------------------------------------------

  /** The capability interface a rights type provides to the generic key
      manager: four capability predicates and the owner's rights. */
  datatype AccessControl<!T> = AccessControl(
    canRead: T -> bool,
    canWrite: T -> bool,
    canGetUserRights: T -> bool,
    canSetUserRights: T -> bool,
    ownerRights: T)

  /** `impl AccessControl for AccessRights`. */
  function RightsAccessControl(): (ac: AccessControl<AccessRights>)
    ensures ac.canSetUserRights(ac.ownerRights) && ac.canGetUserRights(ac.ownerRights)
    ensures forall r :: ac.canRead(r)
    ensures forall r :: ac.canSetUserRights(r) <==> r == ReadWriteManage
  {
    AccessControl(CanRead, CanWrite, CanGetUserRights, CanSetUserRights, OwnerRights())
  }

  // ---------------------------------------------------------------------
  // ByteBuf
  // ---------------------------------------------------------------------

  /** A byte vector wrapper (transport keys, verification keys, vetkeys). */
  datatype ByteBuf = ByteBuf(inner: Bytes)

  /** `ByteBuf::new()` and `ByteBuf::default()`. */
  function NewByteBuf(): (b: ByteBuf)
    ensures VecFromByteBuf(b) == []
  {
    ByteBuf([])
  }

  /** `impl From<Vec<u8>> for ByteBuf`. */
  function ByteBufFromVec(v: Bytes): (b: ByteBuf)
    ensures VecFromByteBuf(b) == v
  {
    ByteBuf(v)
  }

  /** `impl From<ByteBuf> for Vec<u8>` (and `as_ref`). */
  function VecFromByteBuf(b: ByteBuf): (v: Bytes)
  {
    b.inner
  }

  /** The two conversions are mutually inverse. */
  lemma ByteBufConversionsInverse(v: Bytes, b: ByteBuf)
    ensures VecFromByteBuf(ByteBufFromVec(v)) == v
    ensures ByteBufFromVec(VecFromByteBuf(b)) == b
  {
  }
}
