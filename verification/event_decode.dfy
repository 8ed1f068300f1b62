/** Decoding of events: the shared parts read by the event bases, the reader of each
    event type, and `Event::from_json`, which picks the reader from the "type"
    string. */
module EventDecode {
  import opened Wrappers
  import opened Ids
  import opened Info
  import Segments
  import opened SentMessages
  import opened EventNames
  import opened Events
  import J = JsonTree

  /** A nested record: the value under `key`, read by `read`. */
  function Nested<T>(j: J.Json, key: string, read: J.Json -> Result<T>): (r: Result<T>)
    ensures r.Ok? <==> J.Lookup(j, key).Ok? && read(J.Lookup(j, key).value).Ok?
    ensures J.Lookup(j, key).Ok? ==> r == read(J.Lookup(j, key).value)
  {
    var v :- J.Lookup(j, key);
    read(v)
  }

  /** The group of the group-event base. */
  function GroupPart(j: J.Json): Result<Group>
  {
    Nested(j, "group", GroupFromJson)
  }

  /** The executor, always read from "operator". */
  function OperatorPart(j: J.Json): Result<Member>
  {
    Nested(j, "operator", MemberFromJson)
  }

  /** The member of the member-event base. */
  function MemberPart(j: J.Json): Result<Member>
  {
    Nested(j, "member", MemberFromJson)
  }

  /** The received message of the message-event base. */
  function ChainPart(j: J.Json): Result<SentMessage>
  {
    Nested(j, "messageChain", SentMessageFromJson)
  }

  /** User, group and message ids: 64-bit, 64-bit and 32-bit integers. */
  function GetUid(r: Result<J.Json>): (v: Result<UserId>)
    ensures v.Ok? <==> J.GetInt64(r).Ok?
    ensures v.Ok? ==> v.value.id == J.GetInt64(r).value
  {
    var x :- J.GetInt64(r);
    Ok(UserId(x))
  }

  function GetGid(r: Result<J.Json>): (v: Result<GroupId>)
    ensures v.Ok? <==> J.GetInt64(r).Ok?
    ensures v.Ok? ==> v.value.id == J.GetInt64(r).value
  {
    var x :- J.GetInt64(r);
    Ok(GroupId(x))
  }

  function GetMid(r: Result<J.Json>): (v: Result<MessageId>)
    ensures v.Ok? <==> J.GetInt32(r).Ok?
    ensures v.Ok? ==> v.value.id == J.GetInt32(r).value
  {
    var x :- J.GetInt32(r);
    Ok(MessageId(x))
  }

  /** "origin" and then "current", read with the same conversion. */
  function ChangePair<T>(j: J.Json, read: Result<J.Json> -> Result<T>): (r: Result<(T, T)>)
    ensures r.Ok? <==> read(J.Lookup(j, "origin")).Ok? && read(J.Lookup(j, "current")).Ok?
    ensures r.Ok? ==> Ok(r.value.0) == read(J.Lookup(j, "origin")) && Ok(r.value.1) == read(J.Lookup(j, "current"))
  {
    var original :- read(J.Lookup(j, "origin"));
    var current :- read(J.Lookup(j, "current"));
    Ok((original, current))
  }

  /** `FriendMessageEvent::from_json`: the chain, then the sender as a friend. */
  function FriendMessageFromJson(j: J.Json): (r: Result<Event>)
    ensures r.Ok? <==> ChainPart(j).Ok? && Nested(j, "sender", FriendFromJson).Ok?
    ensures r.Ok? ==> r.value.FriendMessage?
    ensures r.Ok? ==> (ChainPart(j) == Ok(r.value.msg)
      && Nested(j, "sender", FriendFromJson) == Ok(r.value.friendSender))
  {
    var msg :- ChainPart(j);
    var s :- Nested(j, "sender", FriendFromJson);
    Ok(FriendMessage(msg, s))
  }

  /** `GroupMessageEvent::from_json` and `TempMessageEvent::from_json`: the chain,
      then the sender as a group member. */
  function GroupMessageFromJson(j: J.Json): (r: Result<Event>)
    ensures r.Ok? <==> ChainPart(j).Ok? && Nested(j, "sender", MemberFromJson).Ok?
    ensures r.Ok? ==> r.value.GroupMessage?
    ensures r.Ok? ==> (ChainPart(j) == Ok(r.value.msg)
      && Nested(j, "sender", MemberFromJson) == Ok(r.value.sender))
  {
    var msg :- ChainPart(j);
    var s :- Nested(j, "sender", MemberFromJson);
    Ok(GroupMessage(msg, s))
  }

  function TempMessageFromJson(j: J.Json): (r: Result<Event>)
    ensures r.Ok? <==> ChainPart(j).Ok? && Nested(j, "sender", MemberFromJson).Ok?
    ensures r.Ok? ==> r.value.TempMessage?
    ensures r.Ok? ==> (ChainPart(j) == Ok(r.value.msg)
      && Nested(j, "sender", MemberFromJson) == Ok(r.value.sender))
  {
    var msg :- ChainPart(j);
    var s :- Nested(j, "sender", MemberFromJson);
    Ok(TempMessage(msg, s))
  }

  /** `BotOnlineEvent::from_json`: login exactly when sent as "BotOnlineEvent", then
      the bot's id from "qq". */
  function BotOnlineFromJson(j: J.Json, name: string): (r: Result<Event>)
    ensures r.Ok? <==> GetUid(J.Lookup(j, "qq")).Ok?
    ensures r.Ok? ==> r.value.BotOnline?
    ensures r.Ok? ==> GetUid(J.Lookup(j, "qq")) == Ok(r.value.botId)
    ensures r.Ok? ==> (r.value.onlineSubtype == Login <==> name == BotOnlineEventName)
  {
    var id :- GetUid(J.Lookup(j, "qq"));
    Ok(BotOnline(BotOnlineSubtypeOf(name), id))
  }

  /** `BotOfflineEvent::from_json`: the cause from the name, then "qq". */
  function BotOfflineFromJson(j: J.Json, name: string): (r: Result<Event>)
    requires IsNameOf(BotOfflineType, name)
    ensures r.Ok? <==> GetUid(J.Lookup(j, "qq")).Ok?
    ensures r.Ok? ==> r.value.BotOffline?
    ensures r.Ok? ==> GetUid(J.Lookup(j, "qq")) == Ok(r.value.botId)
    ensures r.Ok? ==> BotOfflineSubtypeName(r.value.offlineSubtype) == name
  {
    var subtype := BotOfflineSubtypeOf(name);
    var id :- GetUid(J.Lookup(j, "qq"));
    Ok(BotOffline(subtype, id))
  }

  /** `BotGroupPermissionChangeEvent::from_json`: the group, then both levels. */
  function BotGroupPermissionChangeFromJson(j: J.Json): (r: Result<Event>)
    ensures r.Ok? <==> GroupPart(j).Ok? && ChangePair(j, GetPermission).Ok?
    ensures r.Ok? ==> r.value.BotGroupPermissionChange?
    ensures r.Ok? ==> (GroupPart(j) == Ok(r.value.group)
      && ChangePair(j, GetPermission) == Ok((r.value.originalPermission, r.value.currentPermission)))
  {
    var g :- GroupPart(j);
    var p :- ChangePair(j, GetPermission);
    Ok(BotGroupPermissionChange(g, p.0, p.1))
  }

  /** `BotMutedEvent::from_json`: the executor, then "durationSeconds". */
  function BotMutedFromJson(j: J.Json): (r: Result<Event>)
    ensures r.Ok? <==> OperatorPart(j).Ok? && J.GetInt64(J.Lookup(j, "durationSeconds")).Ok?
    ensures r.Ok? ==> r.value.BotMuted?
    ensures r.Ok? ==> (OperatorPart(j) == Ok(r.value.actor)
      && J.GetInt64(J.Lookup(j, "durationSeconds")) == Ok(r.value.duration))
  {
    var ex :- OperatorPart(j);
    var d :- J.GetInt64(J.Lookup(j, "durationSeconds"));
    Ok(BotMuted(ex, d))
  }

  function BotUnmutedFromJson(j: J.Json): (r: Result<Event>)
    ensures r.Ok? <==> OperatorPart(j).Ok?
    ensures r.Ok? ==> r.value.BotUnmuted?
    ensures r.Ok? ==> OperatorPart(j) == Ok(r.value.actor)
  {
    var ex :- OperatorPart(j);
    Ok(BotUnmuted(ex))
  }

  /** The three events that carry only their group. */
  function BotJoinGroupFromJson(j: J.Json): (r: Result<Event>)
    ensures r.Ok? <==> GroupPart(j).Ok?
    ensures r.Ok? ==> r.value.BotJoinGroup?
    ensures r.Ok? ==> GroupPart(j) == Ok(r.value.group)
  {
    var g :- GroupPart(j);
    Ok(BotJoinGroup(g))
  }

  function BotQuitFromJson(j: J.Json): (r: Result<Event>)
    ensures r.Ok? <==> GroupPart(j).Ok?
    ensures r.Ok? ==> r.value.BotQuit?
    ensures r.Ok? ==> GroupPart(j) == Ok(r.value.group)
  {
    var g :- GroupPart(j);
    Ok(BotQuit(g))
  }

  function BotKickedFromJson(j: J.Json): (r: Result<Event>)
    ensures r.Ok? <==> GroupPart(j).Ok?
    ensures r.Ok? ==> r.value.BotKicked?
    ensures r.Ok? ==> GroupPart(j) == Ok(r.value.group)
  {
    var g :- GroupPart(j);
    Ok(BotKicked(g))
  }

  /** `GroupExecutorEventBase::from_json`: the group, then the executor, which is
      therefore always present. */
  function GroupExecutorPart(j: J.Json): (r: Result<(Group, Option<Member>)>)
    ensures r.Ok? <==> GroupPart(j).Ok? && OperatorPart(j).Ok?
    ensures r.Ok? ==> (Ok(r.value.0) == GroupPart(j) && r.value.1.Some?
      && Ok(r.value.1.value) == OperatorPart(j))
  {
    var g :- GroupPart(j);
    var ex :- OperatorPart(j);
    Ok((g, Some(ex)))
  }

  /** The recalled message's sender, id and time. */
  function RecallPart(j: J.Json): (r: Result<(UserId, MessageId, i32)>)
    ensures r.Ok? <==> (GetUid(J.Lookup(j, "authorId")).Ok? && GetMid(J.Lookup(j, "messageId")).Ok?
      && J.GetInt32(J.Lookup(j, "time")).Ok?)
    ensures r.Ok? ==> GetUid(J.Lookup(j, "authorId")) == Ok(r.value.0)
    ensures r.Ok? ==> GetMid(J.Lookup(j, "messageId")) == Ok(r.value.1)
    ensures r.Ok? ==> J.GetInt32(J.Lookup(j, "time")) == Ok(r.value.2)
  {
    var s :- GetUid(J.Lookup(j, "authorId"));
    var m :- GetMid(J.Lookup(j, "messageId"));
    var time :- J.GetInt32(J.Lookup(j, "time"));
    Ok((s, m, time))
  }

  function GroupRecallFromJson(j: J.Json): (r: Result<Event>)
    ensures r.Ok? <==> GroupExecutorPart(j).Ok? && RecallPart(j).Ok?
    ensures r.Ok? ==> r.value.GroupRecall?
    ensures r.Ok? ==> (GroupExecutorPart(j) == Ok((r.value.group, r.value.executor))
      && RecallPart(j) == Ok((r.value.senderId, r.value.msgId, r.value.time)))
  {
    var base :- GroupExecutorPart(j);
    var f :- RecallPart(j);
    Ok(GroupRecall(base.0, base.1, f.0, f.1, f.2))
  }

  function FriendRecallFromJson(j: J.Json): (r: Result<Event>)
    ensures r.Ok? <==> RecallPart(j).Ok?
    ensures r.Ok? ==> r.value.FriendRecall?
    ensures r.Ok? ==> RecallPart(j) == Ok((r.value.senderId, r.value.msgId, r.value.time))
  {
    var f :- RecallPart(j);
    Ok(FriendRecall(f.0, f.1, f.2))
  }

  /** The group name and entrance announcement changes: the base, then the old and
      new texts. */
  function GroupNameChangeFromJson(j: J.Json): (r: Result<Event>)
    ensures r.Ok? <==> GroupExecutorPart(j).Ok? && ChangePair(j, J.GetString).Ok?
    ensures r.Ok? ==> r.value.GroupNameChange?
    ensures r.Ok? ==> (GroupExecutorPart(j) == Ok((r.value.group, r.value.executor))
      && ChangePair(j, J.GetString) == Ok((r.value.originalText, r.value.currentText)))
  {
    var base :- GroupExecutorPart(j);
    var p :- ChangePair(j, J.GetString);
    Ok(GroupNameChange(base.0, base.1, p.0, p.1))
  }

  function GroupEntranceAnnouncementChangeFromJson(j: J.Json): (r: Result<Event>)
    ensures r.Ok? <==> GroupExecutorPart(j).Ok? && ChangePair(j, J.GetString).Ok?
    ensures r.Ok? ==> r.value.GroupEntranceAnnouncementChange?
    ensures r.Ok? ==> (GroupExecutorPart(j) == Ok((r.value.group, r.value.executor))
      && ChangePair(j, J.GetString) == Ok((r.value.originalText, r.value.currentText)))
  {
    var base :- GroupExecutorPart(j);
    var p :- ChangePair(j, J.GetString);
    Ok(GroupEntranceAnnouncementChange(base.0, base.1, p.0, p.1))
  }

  /** `GroupConfigEvent::from_json`: the setting from the name, the base, then the
      old and new states. */
  function GroupConfigFromJson(j: J.Json, name: string): (r: Result<Event>)
    requires IsNameOf(GroupConfigType, name)
    ensures r.Ok? <==> GroupExecutorPart(j).Ok? && ChangePair(j, J.GetBool).Ok?
    ensures r.Ok? ==> r.value.GroupConfig?
    ensures r.Ok? ==> GroupConfigSubtypeName(r.value.configSubtype) == name
    ensures r.Ok? ==> (GroupExecutorPart(j) == Ok((r.value.group, r.value.executor))
      && ChangePair(j, J.GetBool) == Ok((r.value.originalFlag, r.value.currentFlag)))
  {
    var subtype := GroupConfigSubtypeOf(name);
    var base :- GroupExecutorPart(j);
    var p :- ChangePair(j, J.GetBool);
    Ok(GroupConfig(base.0, base.1, subtype, p.0, p.1))
  }

  /** `MemberExecutorEventBase::from_json`: the member, then the executor, which is
      therefore always present. */
  function MemberExecutorPart(j: J.Json): (r: Result<(Member, Option<Member>)>)
    ensures r.Ok? <==> MemberPart(j).Ok? && OperatorPart(j).Ok?
    ensures r.Ok? ==> (Ok(r.value.0) == MemberPart(j) && r.value.1.Some?
      && Ok(r.value.1.value) == OperatorPart(j))
  {
    var m :- MemberPart(j);
    var ex :- OperatorPart(j);
    Ok((m, Some(ex)))
  }

  function MemberJoinFromJson(j: J.Json): (r: Result<Event>)
    ensures r.Ok? <==> MemberPart(j).Ok?
    ensures r.Ok? ==> r.value.MemberJoin?
    ensures r.Ok? ==> MemberPart(j) == Ok(r.value.member)
  {
    var m :- MemberPart(j);
    Ok(MemberJoin(m))
  }

  function MemberQuitFromJson(j: J.Json): (r: Result<Event>)
    ensures r.Ok? <==> MemberPart(j).Ok?
    ensures r.Ok? ==> r.value.MemberQuit?
    ensures r.Ok? ==> MemberPart(j) == Ok(r.value.member)
  {
    var m :- MemberPart(j);
    Ok(MemberQuit(m))
  }

  function MemberKickedFromJson(j: J.Json): (r: Result<Event>)
    ensures r.Ok? <==> MemberExecutorPart(j).Ok?
    ensures r.Ok? ==> r.value.MemberKicked?
    ensures r.Ok? ==> MemberExecutorPart(j) == Ok((r.value.member, r.value.executor))
  {
    var base :- MemberExecutorPart(j);
    Ok(MemberKicked(base.0, base.1))
  }

  function MemberCardChangeFromJson(j: J.Json): (r: Result<Event>)
    ensures r.Ok? <==> MemberExecutorPart(j).Ok? && ChangePair(j, J.GetString).Ok?
    ensures r.Ok? ==> r.value.MemberCardChange?
    ensures r.Ok? ==> (MemberExecutorPart(j) == Ok((r.value.member, r.value.executor))
      && ChangePair(j, J.GetString) == Ok((r.value.originalText, r.value.currentText)))
  {
    var base :- MemberExecutorPart(j);
    var p :- ChangePair(j, J.GetString);
    Ok(MemberCardChange(base.0, base.1, p.0, p.1))
  }

  function MemberSpecialTitleChangeFromJson(j: J.Json): (r: Result<Event>)
    ensures r.Ok? <==> MemberPart(j).Ok? && ChangePair(j, J.GetString).Ok?
    ensures r.Ok? ==> r.value.MemberSpecialTitleChange?
    ensures r.Ok? ==> (MemberPart(j) == Ok(r.value.member)
      && ChangePair(j, J.GetString) == Ok((r.value.originalText, r.value.currentText)))
  {
    var m :- MemberPart(j);
    var p :- ChangePair(j, J.GetString);
    Ok(MemberSpecialTitleChange(m, p.0, p.1))
  }

  function MemberPermissionChangeFromJson(j: J.Json): (r: Result<Event>)
    ensures r.Ok? <==> MemberPart(j).Ok? && ChangePair(j, GetPermission).Ok?
    ensures r.Ok? ==> r.value.MemberPermissionChange?
    ensures r.Ok? ==> (MemberPart(j) == Ok(r.value.member)
      && ChangePair(j, GetPermission) == Ok((r.value.originalPermission, r.value.currentPermission)))
  {
    var m :- MemberPart(j);
    var p :- ChangePair(j, GetPermission);
    Ok(MemberPermissionChange(m, p.0, p.1))
  }

  function MemberMutedFromJson(j: J.Json): (r: Result<Event>)
    ensures r.Ok? <==> MemberExecutorPart(j).Ok? && J.GetInt64(J.Lookup(j, "durationSeconds")).Ok?
    ensures r.Ok? ==> r.value.MemberMuted?
    ensures r.Ok? ==> (MemberExecutorPart(j) == Ok((r.value.member, r.value.executor))
      && J.GetInt64(J.Lookup(j, "durationSeconds")) == Ok(r.value.duration))
  {
    var base :- MemberExecutorPart(j);
    var d :- J.GetInt64(J.Lookup(j, "durationSeconds"));
    Ok(MemberMuted(base.0, base.1, d))
  }

  function MemberUnmutedFromJson(j: J.Json): (r: Result<Event>)
    ensures r.Ok? <==> MemberExecutorPart(j).Ok?
    ensures r.Ok? ==> r.value.MemberUnmuted?
    ensures r.Ok? ==> MemberExecutorPart(j) == Ok((r.value.member, r.value.executor))
  {
    var base :- MemberExecutorPart(j);
    Ok(MemberUnmuted(base.0, base.1))
  }

  /** The fields every request event starts with: "eventId", "fromId", "groupId". */
  function RequestHead(j: J.Json): (r: Result<(i64, UserId, GroupId)>)
    ensures r.Ok? <==> (J.GetInt64(J.Lookup(j, "eventId")).Ok? && GetUid(J.Lookup(j, "fromId")).Ok?
      && GetGid(J.Lookup(j, "groupId")).Ok?)
    ensures r.Ok? ==> J.GetInt64(J.Lookup(j, "eventId")) == Ok(r.value.0)
    ensures r.Ok? ==> GetUid(J.Lookup(j, "fromId")) == Ok(r.value.1)
    ensures r.Ok? ==> GetGid(J.Lookup(j, "groupId")) == Ok(r.value.2)
  {
    var id :- J.GetInt64(J.Lookup(j, "eventId"));
    var from :- GetUid(J.Lookup(j, "fromId"));
    var gid :- GetGid(J.Lookup(j, "groupId"));
    Ok((id, from, gid))
  }

  /** "nick" and then "message". */
  function RequestTail(j: J.Json): (r: Result<(string, string)>)
    ensures r.Ok? <==> J.GetString(J.Lookup(j, "nick")).Ok? && J.GetString(J.Lookup(j, "message")).Ok?
    ensures r.Ok? ==> J.GetString(J.Lookup(j, "nick")) == Ok(r.value.0)
    ensures r.Ok? ==> J.GetString(J.Lookup(j, "message")) == Ok(r.value.1)
  {
    var nick :- J.GetString(J.Lookup(j, "nick"));
    var message :- J.GetString(J.Lookup(j, "message"));
    Ok((nick, message))
  }

  function NewFriendRequestFromJson(j: J.Json): (r: Result<Event>)
    ensures r.Ok? <==> RequestHead(j).Ok? && RequestTail(j).Ok?
    ensures r.Ok? ==> r.value.NewFriendRequest?
    ensures r.Ok? ==> (RequestHead(j) == Ok((r.value.requestId, r.value.fromId, r.value.groupId))
      && RequestTail(j) == Ok((r.value.nick, r.value.message)))
  {
    var head :- RequestHead(j);
    var tail :- RequestTail(j);
    Ok(NewFriendRequest(head.0, head.1, head.2, tail.0, tail.1))
  }

  /** The join and invitation requests read "groupName" between the head and the
      tail. */
  function MemberJoinRequestFromJson(j: J.Json): (r: Result<Event>)
    ensures r.Ok? <==> RequestHead(j).Ok? && J.GetString(J.Lookup(j, "groupName")).Ok? && RequestTail(j).Ok?
    ensures r.Ok? ==> r.value.MemberJoinRequest?
    ensures r.Ok? ==> (RequestHead(j) == Ok((r.value.requestId, r.value.fromId, r.value.groupId))
      && J.GetString(J.Lookup(j, "groupName")) == Ok(r.value.groupName)
      && RequestTail(j) == Ok((r.value.nick, r.value.message)))
  {
    var head :- RequestHead(j);
    var groupName :- J.GetString(J.Lookup(j, "groupName"));
    var tail :- RequestTail(j);
    Ok(MemberJoinRequest(head.0, head.1, head.2, groupName, tail.0, tail.1))
  }

  function BotInvitedJoinGroupRequestFromJson(j: J.Json): (r: Result<Event>)
    ensures r.Ok? <==> RequestHead(j).Ok? && J.GetString(J.Lookup(j, "groupName")).Ok? && RequestTail(j).Ok?
    ensures r.Ok? ==> r.value.BotInvitedJoinGroupRequest?
    ensures r.Ok? ==> (RequestHead(j) == Ok((r.value.requestId, r.value.fromId, r.value.groupId))
      && J.GetString(J.Lookup(j, "groupName")) == Ok(r.value.groupName)
      && RequestTail(j) == Ok((r.value.nick, r.value.message)))
  {
    var head :- RequestHead(j);
    var groupName :- J.GetString(J.Lookup(j, "groupName"));
    var tail :- RequestTail(j);
    Ok(BotInvitedJoinGroupRequest(head.0, head.1, head.2, groupName, tail.0, tail.1))
  }

  /** The reader chosen for a type, one band of the dispatch table at a time. */
  function ReadMessageEvent(j: J.Json, t: EventType): (r: Result<Event>)
    requires Band(t) == 0
    ensures r.Ok? ==> TypeOf(r.value) == t
    ensures t == FriendMessageType ==> r == FriendMessageFromJson(j)
    ensures t == GroupMessageType ==> r == GroupMessageFromJson(j)
    ensures t == TempMessageType ==> r == TempMessageFromJson(j)
  {
    var r :=
      if t == FriendMessageType then FriendMessageFromJson(j)
      else if t == GroupMessageType then GroupMessageFromJson(j)
      else TempMessageFromJson(j);
    if r.Ok? then MessageTags(r.value); r else r
  }

  function ReadBotEvent(j: J.Json, name: string, t: EventType): (r: Result<Event>)
    requires Band(t) == 1 && IsNameOf(t, name)
    ensures r.Ok? ==> TypeOf(r.value) == t
    ensures t == BotOnlineType ==> r == BotOnlineFromJson(j, name)
    ensures t == BotOfflineType ==> r == BotOfflineFromJson(j, name)
    ensures t == BotGroupPermissionChangeType ==> r == BotGroupPermissionChangeFromJson(j)
    ensures t == BotMutedType ==> r == BotMutedFromJson(j)
    ensures t == BotUnmutedType ==> r == BotUnmutedFromJson(j)
    ensures t == BotJoinGroupType ==> r == BotJoinGroupFromJson(j)
    ensures t == BotQuitType ==> r == BotQuitFromJson(j)
    ensures t == BotKickedType ==> r == BotKickedFromJson(j)
  {
    var r :=
      if t == BotOnlineType then BotOnlineFromJson(j, name)
      else if t == BotOfflineType then BotOfflineFromJson(j, name)
      else if t == BotGroupPermissionChangeType then BotGroupPermissionChangeFromJson(j)
      else if t == BotMutedType then BotMutedFromJson(j)
      else if t == BotUnmutedType then BotUnmutedFromJson(j)
      else if t == BotJoinGroupType then BotJoinGroupFromJson(j)
      else if t == BotQuitType then BotQuitFromJson(j)
      else BotKickedFromJson(j);
    if r.Ok? then BotTags(r.value); r else r
  }

  function ReadGroupEvent(j: J.Json, name: string, t: EventType): (r: Result<Event>)
    requires Band(t) == 2 && IsNameOf(t, name)
    ensures r.Ok? ==> TypeOf(r.value) == t
    ensures t == GroupRecallType ==> r == GroupRecallFromJson(j)
    ensures t == FriendRecallType ==> r == FriendRecallFromJson(j)
    ensures t == GroupNameChangeType ==> r == GroupNameChangeFromJson(j)
    ensures t == GroupEntranceAnnouncementChangeType ==> r == GroupEntranceAnnouncementChangeFromJson(j)
    ensures t == GroupConfigType ==> r == GroupConfigFromJson(j, name)
  {
    var r :=
      if t == GroupRecallType then GroupRecallFromJson(j)
      else if t == FriendRecallType then FriendRecallFromJson(j)
      else if t == GroupNameChangeType then GroupNameChangeFromJson(j)
      else if t == GroupEntranceAnnouncementChangeType then GroupEntranceAnnouncementChangeFromJson(j)
      else GroupConfigFromJson(j, name);
    if r.Ok? then GroupChangeTags(r.value); r else r
  }

  function ReadMemberEvent(j: J.Json, t: EventType): (r: Result<Event>)
    requires t == MemberJoinType || t == MemberQuitType || t == MemberKickedType || t == MemberCardChangeType
      || t == MemberSpecialTitleChangeType || t == MemberPermissionChangeType || t == MemberMutedType
      || t == MemberUnmutedType
    ensures r.Ok? ==> TypeOf(r.value) == t
    ensures t == MemberJoinType ==> r == MemberJoinFromJson(j)
    ensures t == MemberQuitType ==> r == MemberQuitFromJson(j)
    ensures t == MemberKickedType ==> r == MemberKickedFromJson(j)
    ensures t == MemberCardChangeType ==> r == MemberCardChangeFromJson(j)
    ensures t == MemberSpecialTitleChangeType ==> r == MemberSpecialTitleChangeFromJson(j)
    ensures t == MemberPermissionChangeType ==> r == MemberPermissionChangeFromJson(j)
    ensures t == MemberMutedType ==> r == MemberMutedFromJson(j)
    ensures t == MemberUnmutedType ==> r == MemberUnmutedFromJson(j)
  {
    var r :=
      if t == MemberJoinType then MemberJoinFromJson(j)
      else if t == MemberQuitType then MemberQuitFromJson(j)
      else if t == MemberKickedType then MemberKickedFromJson(j)
      else if t == MemberCardChangeType then MemberCardChangeFromJson(j)
      else if t == MemberSpecialTitleChangeType then MemberSpecialTitleChangeFromJson(j)
      else if t == MemberPermissionChangeType then MemberPermissionChangeFromJson(j)
      else if t == MemberMutedType then MemberMutedFromJson(j)
      else MemberUnmutedFromJson(j);
    if r.Ok? then MemberTags(r.value); r else r
  }

  function ReadRequestEvent(j: J.Json, t: EventType): (r: Result<Event>)
    requires Band(t) == 4
    ensures r.Ok? ==> TypeOf(r.value) == t
    ensures t == NewFriendRequestType ==> r == NewFriendRequestFromJson(j)
    ensures t == MemberJoinRequestType ==> r == MemberJoinRequestFromJson(j)
    ensures t == BotInvitedJoinGroupRequestType ==> r == BotInvitedJoinGroupRequestFromJson(j)
  {
    var r :=
      if t == NewFriendRequestType then NewFriendRequestFromJson(j)
      else if t == MemberJoinRequestType then MemberJoinRequestFromJson(j)
      else BotInvitedJoinGroupRequestFromJson(j);
    if r.Ok? then RequestTags(r.value); r else r
  }

  function ReadEvent(j: J.Json, name: string, t: EventType): (r: Result<Event>)
    requires IsNameOf(t, name)
    ensures r.Ok? ==> TypeOf(r.value) == t
  {
    match Band(t)
    case 0 => ReadMessageEvent(j, t)
    case 1 => ReadBotEvent(j, name, t)
    case 2 => ReadGroupEvent(j, name, t)
    case 3 => ReadMemberEvent(j, t)
    case 4 => ReadRequestEvent(j, t)
  }
  /* `Event::from_json`'s table, one band at a time: each type is read by its own
     reader, so the read succeeds exactly when that reader's fields do. */

  /** The dispatch for the message events. */
  lemma DispatchMessage(j: J.Json, name: string, t: EventType)
    requires IsNameOf(t, name)
    ensures t == FriendMessageType ==> ReadEvent(j, name, t) == FriendMessageFromJson(j)
    ensures t == GroupMessageType ==> ReadEvent(j, name, t) == GroupMessageFromJson(j)
    ensures t == TempMessageType ==> ReadEvent(j, name, t) == TempMessageFromJson(j)
  {
    if Band(t) == 0 {
      assert ReadEvent(j, name, t) == ReadMessageEvent(j, t);
    }
  }

  /** The dispatch for the bot events. */
  lemma DispatchBot(j: J.Json, name: string, t: EventType)
    requires IsNameOf(t, name)
    ensures t == BotOnlineType ==> ReadEvent(j, name, t) == BotOnlineFromJson(j, name)
    ensures t == BotOfflineType ==> ReadEvent(j, name, t) == BotOfflineFromJson(j, name)
    ensures t == BotGroupPermissionChangeType ==> ReadEvent(j, name, t) == BotGroupPermissionChangeFromJson(j)
    ensures t == BotMutedType ==> ReadEvent(j, name, t) == BotMutedFromJson(j)
    ensures t == BotUnmutedType ==> ReadEvent(j, name, t) == BotUnmutedFromJson(j)
    ensures t == BotJoinGroupType ==> ReadEvent(j, name, t) == BotJoinGroupFromJson(j)
    ensures t == BotQuitType ==> ReadEvent(j, name, t) == BotQuitFromJson(j)
    ensures t == BotKickedType ==> ReadEvent(j, name, t) == BotKickedFromJson(j)
  {
    if Band(t) == 1 {
      assert ReadEvent(j, name, t) == ReadBotEvent(j, name, t);
    }
  }

  /** The dispatch for the group-change events. */
  lemma DispatchGroupChange(j: J.Json, name: string, t: EventType)
    requires IsNameOf(t, name)
    ensures t == GroupRecallType ==> ReadEvent(j, name, t) == GroupRecallFromJson(j)
    ensures t == FriendRecallType ==> ReadEvent(j, name, t) == FriendRecallFromJson(j)
    ensures t == GroupNameChangeType ==> ReadEvent(j, name, t) == GroupNameChangeFromJson(j)
    ensures t == GroupEntranceAnnouncementChangeType ==> ReadEvent(j, name, t) == GroupEntranceAnnouncementChangeFromJson(j)
    ensures t == GroupConfigType ==> ReadEvent(j, name, t) == GroupConfigFromJson(j, name)
  {
    if Band(t) == 2 {
      assert ReadEvent(j, name, t) == ReadGroupEvent(j, name, t);
    }
  }

  /** The dispatch for the member events that join, leave or are kicked, and card changes. */
  lemma DispatchMember(j: J.Json, name: string, t: EventType)
    requires IsNameOf(t, name)
    ensures t == MemberJoinType ==> ReadEvent(j, name, t) == MemberJoinFromJson(j)
    ensures t == MemberQuitType ==> ReadEvent(j, name, t) == MemberQuitFromJson(j)
    ensures t == MemberKickedType ==> ReadEvent(j, name, t) == MemberKickedFromJson(j)
    ensures t == MemberCardChangeType ==> ReadEvent(j, name, t) == MemberCardChangeFromJson(j)
  {
    if t == MemberJoinType || t == MemberQuitType || t == MemberKickedType || t == MemberCardChangeType {
      assert Band(t) == 3;
      assert ReadEvent(j, name, t) == ReadMemberEvent(j, t);
    }
  }

  /** The dispatch for the member title, permission and mute events. */
  lemma DispatchMemberChange(j: J.Json, name: string, t: EventType)
    requires IsNameOf(t, name)
    ensures t == MemberSpecialTitleChangeType ==> ReadEvent(j, name, t) == MemberSpecialTitleChangeFromJson(j)
    ensures t == MemberPermissionChangeType ==> ReadEvent(j, name, t) == MemberPermissionChangeFromJson(j)
    ensures t == MemberMutedType ==> ReadEvent(j, name, t) == MemberMutedFromJson(j)
    ensures t == MemberUnmutedType ==> ReadEvent(j, name, t) == MemberUnmutedFromJson(j)
  {
    if t == MemberSpecialTitleChangeType || t == MemberPermissionChangeType || t == MemberMutedType || t == MemberUnmutedType {
      assert Band(t) == 3;
      assert ReadEvent(j, name, t) == ReadMemberEvent(j, t);
    }
  }


  /** The dispatch for the request events. */
  lemma DispatchRequest(j: J.Json, name: string, t: EventType)
    requires IsNameOf(t, name)
    ensures t == NewFriendRequestType ==> ReadEvent(j, name, t) == NewFriendRequestFromJson(j)
    ensures t == MemberJoinRequestType ==> ReadEvent(j, name, t) == MemberJoinRequestFromJson(j)
    ensures t == BotInvitedJoinGroupRequestType ==> ReadEvent(j, name, t) == BotInvitedJoinGroupRequestFromJson(j)
  {
    if Band(t) == 4 {
      assert ReadEvent(j, name, t) == ReadRequestEvent(j, t);
    }
  }



  const UnknownEventType: Error := RuntimeError("未知的事件类型")

  /** `Event::from_json`: the "type" string alone selects the reader; a string that
      names no type is an error. */
  function EventFromJson(j: J.Json): (r: Result<Event>)
    ensures r.Ok? ==> (J.GetString(J.Lookup(j, "type")).Ok?
      && IsNameOf(TypeOf(r.value), J.GetString(J.Lookup(j, "type")).value))
    ensures (J.GetString(J.Lookup(j, "type")).Ok?
             && forall t :: !IsNameOf(t, J.GetString(J.Lookup(j, "type")).value)) ==> r == Fail(UnknownEventType)
  {
    var name :- J.GetString(J.Lookup(j, "type"));
    match EventTypeFromName(name)
    case None => Fail(UnknownEventType)
    case Some(t) => ReadEvent(j, name, t)
  }

  /** A document sent under a name of type `t` is read by `t`'s reader. */
  lemma DispatchOnName(j: J.Json, name: string, t: EventType)
    requires J.GetString(J.Lookup(j, "type")) == Ok(name) && IsNameOf(t, name)
    ensures EventFromJson(j) == ReadEvent(j, name, t)
  {
    EventTypeFromNameComplete(t, name);
  }

  /** The "type" string of a decoded document. */
  function TypeName(j: J.Json): string
    requires J.GetString(J.Lookup(j, "type")).Ok?
  {
    J.GetString(J.Lookup(j, "type")).value
  }

  /** A decoded bot event is what its own reader gives. */
  lemma BotEventDecoded(j: J.Json, e: Event)
    requires EventFromJson(j) == Ok(e) && IsBotEvent(e)
    ensures J.GetString(J.Lookup(j, "type")).Ok?
    ensures e.BotOnline? ==> BotOnlineFromJson(j, TypeName(j)) == Ok(e)
    ensures e.BotOffline? ==> IsNameOf(BotOfflineType, TypeName(j)) && BotOfflineFromJson(j, TypeName(j)) == Ok(e)
  {
    BotTags(e);
    DispatchOnName(j, TypeName(j), TypeOf(e));
  }

  /** A decoded document was read by the reader of its event's type. */
  lemma DecodedDispatch(j: J.Json, e: Event)
    requires EventFromJson(j) == Ok(e)
    ensures J.GetString(J.Lookup(j, "type")).Ok? && IsNameOf(TypeOf(e), TypeName(j))
    ensures ReadEvent(j, TypeName(j), TypeOf(e)) == Ok(e)
  {
    DispatchOnName(j, TypeName(j), TypeOf(e));
  }

  /** A decoded recall or group change is what its own reader gives. */
  lemma GroupChangeDecoded(j: J.Json, e: Event)
    requires EventFromJson(j) == Ok(e) && IsGroupChangeEvent(e)
    ensures J.GetString(J.Lookup(j, "type")).Ok?
    ensures e.GroupRecall? ==> GroupRecallFromJson(j) == Ok(e)
    ensures e.GroupNameChange? ==> GroupNameChangeFromJson(j) == Ok(e)
    ensures e.GroupEntranceAnnouncementChange? ==> GroupEntranceAnnouncementChangeFromJson(j) == Ok(e)
    ensures e.GroupConfig? ==> IsNameOf(GroupConfigType, TypeName(j)) && GroupConfigFromJson(j, TypeName(j)) == Ok(e)
  {
    DecodedDispatch(j, e);
    GroupChangeTags(e);
    var t := TypeOf(e);
    assert Band(t) == 2;
    assert ReadGroupEvent(j, TypeName(j), t) == Ok(e);
  }

  /** A decoded member event with an executor is what its own reader gives. */
  lemma MemberExecutorDecoded(j: J.Json, e: Event)
    requires EventFromJson(j) == Ok(e) && (e.MemberKicked? || e.MemberCardChange? || e.MemberMuted? || e.MemberUnmuted?)
    ensures e.MemberKicked? ==> MemberKickedFromJson(j) == Ok(e)
    ensures e.MemberCardChange? ==> MemberCardChangeFromJson(j) == Ok(e)
    ensures e.MemberMuted? ==> MemberMutedFromJson(j) == Ok(e)
    ensures e.MemberUnmuted? ==> MemberUnmutedFromJson(j) == Ok(e)
  {
    DecodedDispatch(j, e);
    MemberTags(e);
    var t := TypeOf(e);
    assert Band(t) == 3;
    assert ReadMemberEvent(j, t) == Ok(e);
  }

  /** Decoding always fills the optional executor, from "operator": a document whose
      operator is null or malformed is rejected rather than read as "done by the
      bot". */
  lemma ExecutorAlwaysPresent(j: J.Json, e: Event)
    requires EventFromJson(j) == Ok(e) && HasOptionalExecutor(e)
    ensures e.executor.Some? && OperatorPart(j) == Ok(e.executor.value)
  {
    if IsGroupChangeEvent(e) {
      GroupChangeDecoded(j, e);
    } else {
      MemberExecutorDecoded(j, e);
    }
  }

  /** So on a decoded event, `at_executor` always targets the operator, and falls back
      to the bot's own id only when the bot is the operator. */
  lemma AtExecutorOfDecoded(j: J.Json, e: Event, self: UserId)
    requires EventFromJson(j) == Ok(e) && HasOptionalExecutor(e)
    ensures OperatorPart(j).Ok? && AtExecutor(e, self) == Segments.At(OperatorPart(j).value.id, "")
  {
    ExecutorAlwaysPresent(j, e);
  }

  /** The subtypes of a decoded event follow its "type" string. */
  lemma SubtypesFollowTypeName(j: J.Json, e: Event)
    requires EventFromJson(j) == Ok(e)
    ensures J.GetString(J.Lookup(j, "type")).Ok?
    ensures e.BotOnline? ==> (e.onlineSubtype == Login <==> TypeName(j) == BotOnlineEventName)
    ensures e.BotOffline? ==> BotOfflineSubtypeName(e.offlineSubtype) == TypeName(j)
    ensures e.GroupConfig? ==> GroupConfigSubtypeName(e.configSubtype) == TypeName(j)
  {
    if IsBotEvent(e) {
      BotEventDecoded(j, e);
    } else if IsGroupChangeEvent(e) {
      GroupChangeDecoded(j, e);
    }
  }
}
