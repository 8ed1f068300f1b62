/** Events: the tagged union behind the type-erased `Event`, checked access by type,
    the at/quote helpers and the response codes of the request events. */
module Events {
  import opened Wrappers
  import opened Ids
  import opened Info
  import opened Segments
  import opened SentMessages
  import opened EventNames

  /** One event. The group events with an executor hold it as an optional member;
      the bot mute events hold their executor (`actor`) directly. Durations are whole
      seconds. */
  datatype Event =
    | FriendMessage(msg: SentMessage, friendSender: Friend)
    | GroupMessage(msg: SentMessage, sender: Member)
    | TempMessage(msg: SentMessage, sender: Member)
    | BotOnline(onlineSubtype: BotOnlineSubType, botId: UserId)
    | BotOffline(offlineSubtype: BotOfflineSubType, botId: UserId)
    | BotGroupPermissionChange(group: Group, originalPermission: Permission, currentPermission: Permission)
    | BotMuted(actor: Member, duration: i64)
    | BotUnmuted(actor: Member)
    | BotJoinGroup(group: Group)
    | BotQuit(group: Group)
    | BotKicked(group: Group)
    | GroupRecall(group: Group, executor: Option<Member>, senderId: UserId, msgId: MessageId, time: i32)
    | FriendRecall(senderId: UserId, msgId: MessageId, time: i32)
    | GroupNameChange(group: Group, executor: Option<Member>, originalText: string, currentText: string)
    | GroupEntranceAnnouncementChange(group: Group, executor: Option<Member>, originalText: string, currentText: string)
    | GroupConfig(group: Group, executor: Option<Member>, configSubtype: GroupConfigSubType,
                  originalFlag: bool, currentFlag: bool)
    | MemberJoin(member: Member)
    | MemberQuit(member: Member)
    | MemberKicked(member: Member, executor: Option<Member>)
    | MemberCardChange(member: Member, executor: Option<Member>, originalText: string, currentText: string)
    | MemberSpecialTitleChange(member: Member, originalText: string, currentText: string)
    | MemberPermissionChange(member: Member, originalPermission: Permission, currentPermission: Permission)
    | MemberMuted(member: Member, executor: Option<Member>, duration: i64)
    | MemberUnmuted(member: Member, executor: Option<Member>)
    | NewFriendRequest(requestId: i64, fromId: UserId, groupId: GroupId, nick: string, message: string)
    | MemberJoinRequest(requestId: i64, fromId: UserId, groupId: GroupId, groupName: string,
                        nick: string, message: string)
    | BotInvitedJoinGroupRequest(requestId: i64, fromId: UserId, groupId: GroupId, groupName: string,
                                 nick: string, message: string)

  predicate IsMessageEvent(e: Event)
  {
    e.FriendMessage? || e.GroupMessage? || e.TempMessage?
  }

  /** The events about the bot itself. */
  predicate IsBotEvent(e: Event)
  {
    e.BotOnline? || e.BotOffline? || e.BotGroupPermissionChange? || e.BotMuted? || e.BotUnmuted?
      || e.BotJoinGroup? || e.BotQuit? || e.BotKicked?
  }

  /** The recalls and the changes to a group's settings. */
  predicate IsGroupChangeEvent(e: Event)
  {
    e.GroupRecall? || e.FriendRecall? || e.GroupNameChange? || e.GroupEntranceAnnouncementChange? || e.GroupConfig?
  }

  /** The events built on the member-event base. */
  predicate IsMemberEvent(e: Event)
  {
    e.MemberJoin? || e.MemberQuit? || e.MemberKicked? || e.MemberCardChange?
      || e.MemberSpecialTitleChange? || e.MemberPermissionChange? || e.MemberMuted? || e.MemberUnmuted?
  }

  /** The static tag of the wrapped event; `type()` reports it. It is computed one
      band of related events at a time, in the order of the dispatch table. */
  function TypeOf(e: Event): EventType
  {
    if IsMessageEvent(e) then MessageTypeOf(e)
    else if IsBotEvent(e) then BotTypeOf(e)
    else if IsGroupChangeEvent(e) then GroupChangeTypeOf(e)
    else if IsMemberEvent(e) then MemberTypeOf(e)
    else if e.NewFriendRequest? then NewFriendRequestType
    else if e.MemberJoinRequest? then MemberJoinRequestType
    else BotInvitedJoinGroupRequestType
  }

  function MessageTypeOf(e: Event): EventType
    requires IsMessageEvent(e)
  {
    if e.FriendMessage? then FriendMessageType
    else if e.GroupMessage? then GroupMessageType
    else TempMessageType
  }

  function BotTypeOf(e: Event): EventType
    requires IsBotEvent(e)
  {
    if e.BotOnline? then BotOnlineType
    else if e.BotOffline? then BotOfflineType
    else if e.BotGroupPermissionChange? then BotGroupPermissionChangeType
    else if e.BotMuted? then BotMutedType
    else if e.BotUnmuted? then BotUnmutedType
    else if e.BotJoinGroup? then BotJoinGroupType
    else if e.BotQuit? then BotQuitType
    else BotKickedType
  }

  function GroupChangeTypeOf(e: Event): EventType
    requires IsGroupChangeEvent(e)
  {
    if e.GroupRecall? then GroupRecallType
    else if e.FriendRecall? then FriendRecallType
    else if e.GroupNameChange? then GroupNameChangeType
    else if e.GroupEntranceAnnouncementChange? then GroupEntranceAnnouncementChangeType
    else GroupConfigType
  }

  function MemberTypeOf(e: Event): EventType
    requires IsMemberEvent(e)
  {
    if e.MemberJoin? then MemberJoinType
    else if e.MemberQuit? then MemberQuitType
    else if e.MemberKicked? then MemberKickedType
    else if e.MemberCardChange? then MemberCardChangeType
    else if e.MemberSpecialTitleChange? then MemberSpecialTitleChangeType
    else if e.MemberPermissionChange? then MemberPermissionChangeType
    else if e.MemberMuted? then MemberMutedType
    else MemberUnmutedType
  }

  /** The tag of each constructor, one band at a time. */
  lemma MessageTags(e: Event)
    ensures e.FriendMessage? ==> TypeOf(e) == FriendMessageType
    ensures e.GroupMessage? ==> TypeOf(e) == GroupMessageType
    ensures e.TempMessage? ==> TypeOf(e) == TempMessageType
  {
  }

  lemma BotTags(e: Event)
    ensures e.BotOnline? ==> TypeOf(e) == BotOnlineType
    ensures e.BotOffline? ==> TypeOf(e) == BotOfflineType
    ensures e.BotGroupPermissionChange? ==> TypeOf(e) == BotGroupPermissionChangeType
    ensures e.BotMuted? ==> TypeOf(e) == BotMutedType
    ensures e.BotUnmuted? ==> TypeOf(e) == BotUnmutedType
    ensures e.BotJoinGroup? ==> TypeOf(e) == BotJoinGroupType
    ensures e.BotQuit? ==> TypeOf(e) == BotQuitType
    ensures e.BotKicked? ==> TypeOf(e) == BotKickedType
  {
  }

  lemma GroupChangeTags(e: Event)
    ensures e.GroupRecall? ==> TypeOf(e) == GroupRecallType
    ensures e.FriendRecall? ==> TypeOf(e) == FriendRecallType
    ensures e.GroupNameChange? ==> TypeOf(e) == GroupNameChangeType
    ensures e.GroupEntranceAnnouncementChange? ==> TypeOf(e) == GroupEntranceAnnouncementChangeType
    ensures e.GroupConfig? ==> TypeOf(e) == GroupConfigType
  {
  }

  lemma MemberTags(e: Event)
    ensures e.MemberJoin? ==> TypeOf(e) == MemberJoinType
    ensures e.MemberQuit? ==> TypeOf(e) == MemberQuitType
    ensures e.MemberKicked? ==> TypeOf(e) == MemberKickedType
    ensures e.MemberCardChange? ==> TypeOf(e) == MemberCardChangeType
    ensures e.MemberSpecialTitleChange? ==> TypeOf(e) == MemberSpecialTitleChangeType
    ensures e.MemberPermissionChange? ==> TypeOf(e) == MemberPermissionChangeType
    ensures e.MemberMuted? ==> TypeOf(e) == MemberMutedType
    ensures e.MemberUnmuted? ==> TypeOf(e) == MemberUnmutedType
  {
  }

  lemma RequestTags(e: Event)
    ensures e.NewFriendRequest? ==> TypeOf(e) == NewFriendRequestType
    ensures e.MemberJoinRequest? ==> TypeOf(e) == MemberJoinRequestType
    ensures e.BotInvitedJoinGroupRequest? ==> TypeOf(e) == BotInvitedJoinGroupRequestType
  {
  }

  const EventTypeMismatch: Error := RuntimeError("事件类型不匹配")

  /** `get<T>`: the event when it holds a T, otherwise a runtime error. */
  function Get(e: Event, t: EventType): (r: Result<Event>)
    ensures r.Ok? <==> TypeOf(e) == t
    ensures r.Ok? ==> r.value == e
    ensures r.Fail? ==> r.error == EventTypeMismatch
  {
    if TypeOf(e) == t then Ok(e) else Fail(EventTypeMismatch)
  }

  /** `get_if<T>`: present exactly when the event holds a T. */
  function GetIf(e: Event, t: EventType): (r: Option<Event>)
    ensures r.Some? <==> TypeOf(e) == t
    ensures r.Some? ==> r.value == e
  {
    if TypeOf(e) == t then Some(e) else None
  }

  lemma GetAgreesWithGetIf(e: Event, t: EventType)
    ensures Get(e, t).Ok? <==> GetIf(e, t).Some?
    ensures Get(e, t).Ok? ==> Get(e, t) == Ok(GetIf(e, t).value)
  {
  }

  /** The events whose executor is optional: the group-executor and member-executor
      bases. */
  predicate HasOptionalExecutor(e: Event)
  {
    e.GroupRecall? || e.GroupNameChange? || e.GroupEntranceAnnouncementChange? || e.GroupConfig?
      || e.MemberKicked? || e.MemberCardChange? || e.MemberMuted? || e.MemberUnmuted?
  }

  /** `at_sender` of a group message or a group recall: an at with no display text. */
  function AtSender(e: Event): (s: Segment)
    requires e.GroupMessage? || e.GroupRecall?
    ensures s.At? && s.display == ""
    ensures s.target == (if e.GroupMessage? then e.sender.id else e.senderId)
  {
    At(if e.GroupMessage? then e.sender.id else e.senderId, "")
  }

  /** Since an at compares by target only, the at built for the sender equals every at
      of the sender, whatever its display text, and no at of anybody else. */
  lemma AtSenderMatchesAnyDisplay(e: Event, u: UserId, d: string)
    requires e.GroupMessage? || e.GroupRecall?
    ensures SegmentEq(AtSender(e), At(u, d)) <==> u == (if e.GroupMessage? then e.sender.id else e.senderId)
  {
  }

  /** `at_member` of the member events. */
  function AtMember(e: Event): (s: Segment)
    requires IsMemberEvent(e)
    ensures s.At? && s.display == "" && s.target == e.member.id
  {
    At(e.member.id, "")
  }

  /** `at_executor`: the executor when there is one, otherwise the bot's own id, which
      is a parameter here. The bot mute events always have one. */
  function AtExecutor(e: Event, self: UserId): (s: Segment)
    requires HasOptionalExecutor(e) || e.BotMuted? || e.BotUnmuted?
    ensures s.At? && s.display == ""
    ensures HasOptionalExecutor(e) ==> (s.target == self <==> e.executor.None? || e.executor.value.id == self)
    ensures HasOptionalExecutor(e) && e.executor.Some? ==> s.target == e.executor.value.id
    ensures e.BotMuted? || e.BotUnmuted? ==> s.target == e.actor.id
  {
    if e.BotMuted? || e.BotUnmuted? then At(e.actor.id, "")
    else if e.executor.Some? then At(e.executor.value.id, "")
    else At(self, "")
  }

  /** The message a quote reply cites: the event's own message for message events,
      the recalled message for recall events. */
  function QuoteTarget(e: Event): (m: MessageId)
    requires IsMessageEvent(e) || e.GroupRecall? || e.FriendRecall?
    ensures IsMessageEvent(e) ==> m == e.msg.source.id
    ensures e.GroupRecall? || e.FriendRecall? ==> m == e.msgId
  {
    if IsMessageEvent(e) then e.msg.source.id else e.msgId
  }

  /** Responses to the request events and their wire codes. */
  datatype NewFriendResponse = FriendApprove | FriendReject | FriendRejectAndBlacklist

  datatype MemberJoinResponse = JoinApprove | JoinReject | JoinIgnore | JoinRejectAndBlacklist | JoinIgnoreAndBlacklist

  datatype BotInvitedResponse = InviteApprove | InviteReject

  function NewFriendResponseCode(r: NewFriendResponse): (c: nat)
    ensures c <= 2
  {
    match r
    case FriendApprove => 0
    case FriendReject => 1
    case FriendRejectAndBlacklist => 2
  }

  function MemberJoinResponseCode(r: MemberJoinResponse): (c: nat)
    ensures c <= 4
  {
    match r
    case JoinApprove => 0
    case JoinReject => 1
    case JoinIgnore => 2
    case JoinRejectAndBlacklist => 3
    case JoinIgnoreAndBlacklist => 4
  }

  function BotInvitedResponseCode(r: BotInvitedResponse): (c: nat)
    ensures c <= 1
  {
    match r
    case InviteApprove => 0
    case InviteReject => 1
  }

  /** Distinct responses have distinct codes; with the range bounds this makes each
      table a bijection onto 0..2, 0..4 and 0..1. */
  lemma ResponseCodesBijective(a: NewFriendResponse, b: NewFriendResponse, c: MemberJoinResponse,
                               d: MemberJoinResponse, x: BotInvitedResponse, y: BotInvitedResponse)
    ensures NewFriendResponseCode(a) == NewFriendResponseCode(b) ==> a == b
    ensures MemberJoinResponseCode(c) == MemberJoinResponseCode(d) ==> c == d
    ensures BotInvitedResponseCode(x) == BotInvitedResponseCode(y) ==> x == y
  {
  }
}
