/** Friend, group and member records as the server reports them, and the decoding of
    a member's permission level. */
module Info {
  import opened Wrappers
  import opened Ids
  import opened JsonTree

  datatype Permission = MemberLevel | AdminLevel | OwnerLevel

  /** The server's name for each permission level. */
  function PermissionName(p: Permission): string
  {
    match p
    case MemberLevel => "MEMBER"
    case AdminLevel => "ADMINISTRATOR"
    case OwnerLevel => "OWNER"
  }

  /** `permission_from_string`: the three known names; anything else is an error. */
  function PermissionFromString(s: string): (r: Result<Permission>)
    ensures r.Ok? <==> s in {"MEMBER", "ADMINISTRATOR", "OWNER"}
    ensures r.Fail? ==> r.error == RuntimeError("未知的权限类型")
  {
    if s == "MEMBER" then Ok(MemberLevel)
    else if s == "ADMINISTRATOR" then Ok(AdminLevel)
    else if s == "OWNER" then Ok(OwnerLevel)
    else Fail(RuntimeError("未知的权限类型"))
  }

  /** Decoding and naming are inverse to each other in both directions. */
  lemma PermissionNameRoundTrip(p: Permission, s: string)
    ensures PermissionFromString(PermissionName(p)) == Ok(p)
    ensures PermissionFromString(s).Ok? ==> PermissionName(PermissionFromString(s).value) == s
  {
  }

  /** A permission read from a field: the field must be a string naming a level. */
  function GetPermission(r: Result<Json>): (v: Result<Permission>)
    ensures v.Ok? <==> GetString(r).Ok? && PermissionFromString(GetString(r).value).Ok?
    ensures v.Ok? ==> PermissionName(v.value) == r.value.s
  {
    var s :- GetString(r);
    PermissionNameRoundTrip(MemberLevel, s);
    PermissionFromString(s)
  }

  datatype Friend = Friend(id: UserId, name: string, remark: string)

  datatype Group = Group(id: GroupId, name: string, permission: Permission)

  datatype Member = Member(group: Group, id: UserId, name: string, permission: Permission)

  /** A friend record reads "id", "nickname" (as the name) and "remark". */
  function FriendFromJson(j: Json): (r: Result<Friend>)
    ensures r.Ok? <==> (GetInt64(Lookup(j, "id")).Ok? && GetString(Lookup(j, "nickname")).Ok?
      && GetString(Lookup(j, "remark")).Ok?)
    ensures r.Ok? ==> (r.value.id.id as int == Lookup(j, "id").value.n
      && r.value.name == Lookup(j, "nickname").value.s && r.value.remark == Lookup(j, "remark").value.s)
  {
    var id :- GetInt64(Lookup(j, "id"));
    var name :- GetString(Lookup(j, "nickname"));
    var remark :- GetString(Lookup(j, "remark"));
    Ok(Friend(UserId(id), name, remark))
  }

  /** A group record reads "id", "name" and "permission". */
  function GroupFromJson(j: Json): (r: Result<Group>)
    ensures r.Ok? <==> (GetInt64(Lookup(j, "id")).Ok? && GetString(Lookup(j, "name")).Ok?
      && GetPermission(Lookup(j, "permission")).Ok?)
    ensures r.Ok? ==> (r.value.id.id as int == Lookup(j, "id").value.n
      && r.value.name == Lookup(j, "name").value.s
      && PermissionName(r.value.permission) == Lookup(j, "permission").value.s)
  {
    var id :- GetInt64(Lookup(j, "id"));
    var name :- GetString(Lookup(j, "name"));
    var permission :- GetPermission(Lookup(j, "permission"));
    Ok(Group(GroupId(id), name, permission))
  }

  /** A member record reads a nested "group", then "id", "memberName" (as the name)
      and "permission". */
  function MemberFromJson(j: Json): (r: Result<Member>)
    ensures r.Ok? <==> (Lookup(j, "group").Ok? && GroupFromJson(Lookup(j, "group").value).Ok?
      && GetInt64(Lookup(j, "id")).Ok? && GetString(Lookup(j, "memberName")).Ok?
      && GetPermission(Lookup(j, "permission")).Ok?)
    ensures r.Ok? ==> (Ok(r.value.group) == GroupFromJson(Lookup(j, "group").value)
      && r.value.id.id as int == Lookup(j, "id").value.n
      && r.value.name == Lookup(j, "memberName").value.s
      && PermissionName(r.value.permission) == Lookup(j, "permission").value.s)
  {
    var gj :- Lookup(j, "group");
    var group :- GroupFromJson(gj);
    var id :- GetInt64(Lookup(j, "id"));
    var name :- GetString(Lookup(j, "memberName"));
    var permission :- GetPermission(Lookup(j, "permission"));
    Ok(Member(group, UserId(id), name, permission))
  }

  /** The documents the server sends for each record, used to state that the decoders
      recover every field. */
  function FriendTree(f: Friend): Json
  {
    JObj([Field("id", JInt(f.id.id as int)), Field("nickname", JStr(f.name)), Field("remark", JStr(f.remark))])
  }

  function GroupTree(g: Group): Json
  {
    JObj([Field("id", JInt(g.id.id as int)), Field("name", JStr(g.name)),
          Field("permission", JStr(PermissionName(g.permission)))])
  }

  function MemberTree(m: Member): Json
  {
    JObj([Field("group", GroupTree(m.group)), Field("id", JInt(m.id.id as int)),
          Field("memberName", JStr(m.name)), Field("permission", JStr(PermissionName(m.permission)))])
  }

  lemma FriendRoundTrip(f: Friend)
    ensures FriendFromJson(FriendTree(f)) == Ok(f)
  {
    var fs := FriendTree(f).fields;
    LookupAt(fs, 0, "id");
    LookupAt(fs, 1, "nickname");
    LookupAt(fs, 2, "remark");
  }

  lemma GroupRoundTrip(g: Group)
    ensures GroupFromJson(GroupTree(g)) == Ok(g)
  {
    var fs := GroupTree(g).fields;
    LookupAt(fs, 0, "id");
    LookupAt(fs, 1, "name");
    LookupAt(fs, 2, "permission");
    PermissionNameRoundTrip(g.permission, "");
  }

  lemma MemberRoundTrip(m: Member)
    ensures MemberFromJson(MemberTree(m)) == Ok(m)
  {
    var fs := MemberTree(m).fields;
    LookupAt(fs, 0, "group");
    LookupAt(fs, 1, "id");
    LookupAt(fs, 2, "memberName");
    LookupAt(fs, 3, "permission");
    GroupRoundTrip(m.group);
    PermissionNameRoundTrip(m.permission, "");
  }

  /** A group record naming an unknown permission fails to decode. */
  lemma UnknownPermissionRejected(g: Group, s: string)
    requires s !in {"MEMBER", "ADMINISTRATOR", "OWNER"}
    ensures GroupFromJson(JObj([Field("id", JInt(g.id.id as int)), Field("name", JStr(g.name)),
      Field("permission", JStr(s))])).Fail?
  {
  }
}
