/** Session, group and member configuration records: every field is optional, read
    as absent when its key is missing or null, and written as null when absent. */
module Config {
  import opened Wrappers
  import opened Ids
  import opened JsonTree
  import opened JsonWriter

  datatype SessionConfig = SessionConfig(cacheSize: Option<i32>, enableWebsocket: Option<bool>)

  datatype GroupConfig = GroupConfig(
    name: Option<string>,
    announcement: Option<string>,
    allowConfessTalk: Option<bool>,
    allowMemberInvitation: Option<bool>,
    autoApprove: Option<bool>,
    allowAnonymousChat: Option<bool>)

  datatype MemberInfo = MemberInfo(name: Option<string>, specialTitle: Option<string>)

  function SessionConfigFromJson(j: Json): (r: Result<SessionConfig>)
    ensures MissingOrNull(Lookup(j, "cacheSize")) && MissingOrNull(Lookup(j, "enableWebsocket")) ==>
      r == Ok(SessionConfig(None, None))
    ensures r.Ok? ==> (r.value.cacheSize.Some? <==> !MissingOrNull(Lookup(j, "cacheSize")))
    ensures r.Ok? ==> (r.value.enableWebsocket.Some? <==> !MissingOrNull(Lookup(j, "enableWebsocket")))
    ensures r.Ok? <==> (GetOptionalInt32(Lookup(j, "cacheSize")).Ok?
      && GetOptionalBool(Lookup(j, "enableWebsocket")).Ok?)
    ensures r.Ok? ==> (GetOptionalInt32(Lookup(j, "cacheSize")) == Ok(r.value.cacheSize)
      && GetOptionalBool(Lookup(j, "enableWebsocket")) == Ok(r.value.enableWebsocket))
  {
    var cacheSize :- GetOptionalInt32(Lookup(j, "cacheSize"));
    var enableWebsocket :- GetOptionalBool(Lookup(j, "enableWebsocket"));
    Ok(SessionConfig(cacheSize, enableWebsocket))
  }

  function OptString(o: Option<string>): Writable
  {
    WOpt(if o.Some? then Some(WStr(o.value)) else None)
  }

  function OptBool(o: Option<bool>): Writable
  {
    WOpt(if o.Some? then Some(WBool(o.value)) else None)
  }

  /** The keys of a group configuration, in the order they are written. */
  const GroupConfigKeys: seq<string> :=
    ["name", "announcement", "confessTalk", "allowMemberInvite", "autoApprove", "anonymousChat"]

  function GroupConfigFromJson(j: Json): (r: Result<GroupConfig>)
    ensures r.Ok? ==> (r.value.name.Some? <==> !MissingOrNull(Lookup(j, "name")))
    ensures r.Ok? ==> (r.value.announcement.Some? <==> !MissingOrNull(Lookup(j, "announcement")))
    ensures r.Ok? ==> (r.value.allowConfessTalk.Some? <==> !MissingOrNull(Lookup(j, "confessTalk")))
    ensures r.Ok? ==> (r.value.allowMemberInvitation.Some? <==> !MissingOrNull(Lookup(j, "allowMemberInvite")))
    ensures r.Ok? ==> (r.value.autoApprove.Some? <==> !MissingOrNull(Lookup(j, "autoApprove")))
    ensures r.Ok? ==> (r.value.allowAnonymousChat.Some? <==> !MissingOrNull(Lookup(j, "anonymousChat")))
    ensures r.Ok? <==> (GetOptionalString(Lookup(j, "name")).Ok?
      && GetOptionalString(Lookup(j, "announcement")).Ok?
      && GetOptionalBool(Lookup(j, "confessTalk")).Ok?
      && GetOptionalBool(Lookup(j, "allowMemberInvite")).Ok?
      && GetOptionalBool(Lookup(j, "autoApprove")).Ok?
      && GetOptionalBool(Lookup(j, "anonymousChat")).Ok?)
    ensures r.Ok? ==> (GetOptionalString(Lookup(j, "name")) == Ok(r.value.name)
      && GetOptionalString(Lookup(j, "announcement")) == Ok(r.value.announcement)
      && GetOptionalBool(Lookup(j, "confessTalk")) == Ok(r.value.allowConfessTalk)
      && GetOptionalBool(Lookup(j, "allowMemberInvite")) == Ok(r.value.allowMemberInvitation)
      && GetOptionalBool(Lookup(j, "autoApprove")) == Ok(r.value.autoApprove)
      && GetOptionalBool(Lookup(j, "anonymousChat")) == Ok(r.value.allowAnonymousChat))
    ensures (MissingOrNull(Lookup(j, "name")) && MissingOrNull(Lookup(j, "announcement"))
      && MissingOrNull(Lookup(j, "confessTalk")) && MissingOrNull(Lookup(j, "allowMemberInvite"))
      && MissingOrNull(Lookup(j, "autoApprove")) && MissingOrNull(Lookup(j, "anonymousChat"))) ==>
      r == Ok(GroupConfig(None, None, None, None, None, None))
  {
    var name :- GetOptionalString(Lookup(j, "name"));
    var announcement :- GetOptionalString(Lookup(j, "announcement"));
    var confess :- GetOptionalBool(Lookup(j, "confessTalk"));
    var invite :- GetOptionalBool(Lookup(j, "allowMemberInvite"));
    var approve :- GetOptionalBool(Lookup(j, "autoApprove"));
    var anonymous :- GetOptionalBool(Lookup(j, "anonymousChat"));
    Ok(GroupConfig(name, announcement, confess, invite, approve, anonymous))
  }

  /** The object written for a group configuration: all six keys in a fixed order,
      null for each absent field. */
  function GroupConfigWritable(g: GroupConfig): (w: Writable)
    ensures w.WObj? && |w.entries| == 6
    ensures forall k :: 0 <= k < 6 ==> w.entries[k].key == GroupConfigKeys[k]
    ensures forall k :: 0 <= k < 6 ==> w.entries[k].value.WOpt?
    ensures forall k :: 0 <= k < 6 ==> (ToTree(w.entries[k].value) == JNull <==> w.entries[k].value.opt.None?)
  {
    WObj([
      Entry("name", OptString(g.name)),
      Entry("announcement", OptString(g.announcement)),
      Entry("confessTalk", OptBool(g.allowConfessTalk)),
      Entry("allowMemberInvite", OptBool(g.allowMemberInvitation)),
      Entry("autoApprove", OptBool(g.autoApprove)),
      Entry("anonymousChat", OptBool(g.allowAnonymousChat))])
  }

  /** `GroupConfig::format_as_json`: the text the object scope produces. */
  function GroupConfigJson(g: GroupConfig): (t: string)
    ensures t == Write(GroupConfigWritable(g))
  {
    ObjectJson(GroupConfigWritable(g).entries)
  }

  function StringTree(o: Option<string>): (t: Json)
    ensures t == ToTree(OptString(o))
  {
    if o.Some? then JStr(o.value) else JNull
  }

  function BoolTree(o: Option<bool>): (t: Json)
    ensures t == ToTree(OptBool(o))
  {
    if o.Some? then JBool(o.value) else JNull
  }

  /** The document a written group configuration denotes. */
  function GroupConfigTree(g: GroupConfig): Json
  {
    JObj([
      Field("name", StringTree(g.name)),
      Field("announcement", StringTree(g.announcement)),
      Field("confessTalk", BoolTree(g.allowConfessTalk)),
      Field("allowMemberInvite", BoolTree(g.allowMemberInvitation)),
      Field("autoApprove", BoolTree(g.autoApprove)),
      Field("anonymousChat", BoolTree(g.allowAnonymousChat))])
  }

  lemma GroupConfigNameField(g: GroupConfig)
    ensures GetOptionalString(Lookup(GroupConfigTree(g), "name")) == Ok(g.name)
  {
    LookupAt(GroupConfigTree(g).fields, 0, "name");
  }

  lemma GroupConfigAnnouncementField(g: GroupConfig)
    ensures GetOptionalString(Lookup(GroupConfigTree(g), "announcement")) == Ok(g.announcement)
  {
    LookupAt(GroupConfigTree(g).fields, 1, "announcement");
  }

  lemma GroupConfigConfessField(g: GroupConfig)
    ensures GetOptionalBool(Lookup(GroupConfigTree(g), "confessTalk")) == Ok(g.allowConfessTalk)
  {
    LookupAt(GroupConfigTree(g).fields, 2, "confessTalk");
  }

  lemma GroupConfigInviteField(g: GroupConfig)
    ensures GetOptionalBool(Lookup(GroupConfigTree(g), "allowMemberInvite")) == Ok(g.allowMemberInvitation)
  {
    LookupAt(GroupConfigTree(g).fields, 3, "allowMemberInvite");
  }

  lemma GroupConfigApproveField(g: GroupConfig)
    ensures GetOptionalBool(Lookup(GroupConfigTree(g), "autoApprove")) == Ok(g.autoApprove)
  {
    LookupAt(GroupConfigTree(g).fields, 4, "autoApprove");
  }

  lemma GroupConfigAnonymousField(g: GroupConfig)
    ensures GetOptionalBool(Lookup(GroupConfigTree(g), "anonymousChat")) == Ok(g.allowAnonymousChat)
  {
    LookupAt(GroupConfigTree(g).fields, 5, "anonymousChat");
  }

  lemma DecodeGroupConfigTree(g: GroupConfig)
    ensures GroupConfigFromJson(GroupConfigTree(g)) == Ok(g)
  {
    GroupConfigNameField(g);
    GroupConfigAnnouncementField(g);
    GroupConfigConfessField(g);
    GroupConfigInviteField(g);
    GroupConfigApproveField(g);
    GroupConfigAnonymousField(g);
  }

  /** The written object denotes `GroupConfigTree`, field by field. */
  lemma GroupConfigDenotes(g: GroupConfig)
    ensures ToTree(GroupConfigWritable(g)) == GroupConfigTree(g)
  {
    var es := GroupConfigWritable(g).entries;
    var fs := ToFields(es);
    var gs := GroupConfigTree(g).fields;
    assert fs[0] == gs[0];
    assert fs[1] == gs[1];
    assert fs[2] == gs[2];
    assert fs[3] == gs[3];
    assert fs[4] == gs[4];
    assert fs[5] == gs[5];
    assert fs == gs;
  }

  /** Every field is read back from the key it was written under. */
  lemma GroupConfigRoundTrip(g: GroupConfig)
    ensures GroupConfigFromJson(ToTree(GroupConfigWritable(g))) == Ok(g)
  {
    GroupConfigDenotes(g);
    DecodeGroupConfigTree(g);
  }

  function MemberInfoFromJson(j: Json): (r: Result<MemberInfo>)
    ensures r.Ok? ==> (r.value.name.Some? <==> !MissingOrNull(Lookup(j, "name")))
    ensures r.Ok? ==> (r.value.specialTitle.Some? <==> !MissingOrNull(Lookup(j, "specialTitle")))
    ensures r.Ok? <==> GetOptionalString(Lookup(j, "name")).Ok? && GetOptionalString(Lookup(j, "specialTitle")).Ok?
    ensures r.Ok? ==> (GetOptionalString(Lookup(j, "name")) == Ok(r.value.name)
      && GetOptionalString(Lookup(j, "specialTitle")) == Ok(r.value.specialTitle))
  {
    var name :- GetOptionalString(Lookup(j, "name"));
    var title :- GetOptionalString(Lookup(j, "specialTitle"));
    Ok(MemberInfo(name, title))
  }

  function MemberInfoWritable(m: MemberInfo): (w: Writable)
    ensures w.WObj? && |w.entries| == 2
    ensures w.entries[0].key == "name" && w.entries[1].key == "specialTitle"
  {
    WObj([Entry("name", OptString(m.name)), Entry("specialTitle", OptString(m.specialTitle))])
  }

  lemma MemberInfoRoundTrip(m: MemberInfo)
    ensures MemberInfoFromJson(ToTree(MemberInfoWritable(m))) == Ok(m)
  {
    var fs := ToTree(MemberInfoWritable(m)).fields;
    LookupAt(fs, 0, "name");
    LookupAt(fs, 1, "specialTitle");
  }

  /** The document a server sends for a session configuration: each key present,
      null for an absent setting. */
  function SessionConfigTree(c: SessionConfig): Json
  {
    JObj([Field("cacheSize", if c.cacheSize.Some? then JInt(c.cacheSize.value as int) else JNull),
          Field("enableWebsocket", if c.enableWebsocket.Some? then JBool(c.enableWebsocket.value) else JNull)])
  }

  lemma SessionConfigRoundTrip(c: SessionConfig)
    ensures SessionConfigFromJson(SessionConfigTree(c)) == Ok(c)
  {
    var fs := SessionConfigTree(c).fields;
    LookupAt(fs, 0, "cacheSize");
    LookupAt(fs, 1, "enableWebsocket");
  }
}
