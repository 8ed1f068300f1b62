/** Identifier value types: user, group, temporary-session and message ids, the
    message target kinds, and the fixed-width integers they are built from. */
module Ids {

  newtype i64 = x: int | -0x8000_0000_0000_0000 <= x < 0x8000_0000_0000_0000
  newtype i32 = x: int | -0x8000_0000 <= x < 0x8000_0000

  /** Two's complement truncation to 64 bits (static_cast<int64_t> of a wider value). */
  function Wrap64(x: int): (r: i64)
    ensures (r as int - x) % 0x1_0000_0000_0000_0000 == 0
    ensures -0x8000_0000_0000_0000 <= x < 0x8000_0000_0000_0000 ==> r as int == x
  {
    ((x + 0x8000_0000_0000_0000) % 0x1_0000_0000_0000_0000 - 0x8000_0000_0000_0000) as i64
  }

  /** Two's complement truncation to 32 bits (static_cast<int32_t> of a wider value). */
  function Wrap32(x: int): (r: i32)
    ensures (r as int - x) % 0x1_0000_0000 == 0
    ensures -0x8000_0000 <= x < 0x8000_0000 ==> r as int == x
  {
    ((x + 0x8000_0000) % 0x1_0000_0000 - 0x8000_0000) as i32
  }

  datatype Ordering = Less | Equal | Greater {
    function Flip(): Ordering
    {
      match this
      case Less => Greater
      case Equal => Equal
      case Greater => Less
    }
  }

  /** The three-way comparison a defaulted operator<=> performs on one integer. */
  function CompareInt(a: int, b: int): Ordering
  {
    if a < b then Less else if a == b then Equal else Greater
  }

  /** A QQ number. The default value 0 is the invalid id. */
  datatype UserId = UserId(id: i64) {
    /** `valid()` and the explicit conversion to bool. */
    predicate Valid()
    {
      id != 0
    }
  }

  /** A group number. The default value 0 is the invalid id. */
  datatype GroupId = GroupId(id: i64) {
    predicate Valid()
    {
      id != 0
    }
  }

  /** The target of a temporary session: a user reached through a group. */
  datatype TempId = TempId(uid: UserId, gid: GroupId)

  datatype MessageId = MessageId(id: i32)

  const DefaultUserId := UserId(0)
  const DefaultGroupId := GroupId(0)

  lemma DefaultIdsInvalid()
    ensures !DefaultUserId.Valid() && !DefaultGroupId.Valid()
    ensures forall u: UserId :: u.Valid() <==> u != DefaultUserId
    ensures forall g: GroupId :: g.Valid() <==> g != DefaultGroupId
  {
  }

  function CompareUserId(a: UserId, b: UserId): Ordering
  {
    CompareInt(a.id as int, b.id as int)
  }

  function CompareGroupId(a: GroupId, b: GroupId): Ordering
  {
    CompareInt(a.id as int, b.id as int)
  }

  /** The defaulted operator<=> of TempId: member-wise, uid first, then gid. */
  function CompareTempId(a: TempId, b: TempId): (r: Ordering)
    ensures r == Less <==> a.uid.id < b.uid.id || (a.uid == b.uid && a.gid.id < b.gid.id)
    ensures r == Equal <==> a == b
    ensures r == Greater <==> a.uid.id > b.uid.id || (a.uid == b.uid && a.gid.id > b.gid.id)
  {
    var c := CompareUserId(a.uid, b.uid);
    if c != Equal then c else CompareGroupId(a.gid, b.gid)
  }

  /** The defaulted operator<=> of MessageId: by the integer value. */
  function CompareMessageId(a: MessageId, b: MessageId): (r: Ordering)
    ensures r == Less <==> a.id < b.id
    ensures r == Equal <==> a == b
  {
    CompareInt(a.id as int, b.id as int)
  }

  /** The lexicographic order on temporary-session ids is a strict total order whose
      reverse comparison is the flipped result. */
  lemma TempIdOrderIsTotal(a: TempId, b: TempId, c: TempId)
    ensures CompareTempId(b, a) == CompareTempId(a, b).Flip()
    ensures CompareTempId(a, b) == Less && CompareTempId(b, c) == Less ==> CompareTempId(a, c) == Less
    ensures CompareTempId(a, a) == Equal
  {
  }

  /** The categories of message targets. */
  datatype TargetType = FriendTarget | GroupTarget | TempTarget

  /** `to_string_view(TargetType)`. */
  function TargetTypeName(t: TargetType): string
  {
    match t
    case FriendTarget => "friend"
    case GroupTarget => "group"
    case TempTarget => "temp"
  }

  /** The three names are distinct, so the name identifies the target kind. */
  lemma TargetTypeNameInjective(a: TargetType, b: TargetType)
    ensures TargetTypeName(a) == TargetTypeName(b) <==> a == b
  {
  }

  const UInt64Limit := 0x1_0000_0000_0000_0000

  /** The `_uid` literal: static_cast<int64_t> of an unsigned long long. */
  function UidLiteral(value: nat): (r: UserId)
    requires value < UInt64Limit
    ensures value < 0x8000_0000_0000_0000 ==> r.id as int == value
    ensures value >= 0x8000_0000_0000_0000 ==> r.id as int == value - UInt64Limit
  {
    UserId(Wrap64(value))
  }

  /** The `_gid` literal. */
  function GidLiteral(value: nat): (r: GroupId)
    requires value < UInt64Limit
    ensures value < 0x8000_0000_0000_0000 ==> r.id as int == value
    ensures value >= 0x8000_0000_0000_0000 ==> r.id as int == value - UInt64Limit
  {
    GroupId(Wrap64(value))
  }
}
