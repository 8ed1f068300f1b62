/** The event types, the server's "type" strings for them, the dispatch table from a
    string to a type, and the subtype tables of the events that several strings
    share. */
module EventNames {
  import opened Wrappers

  datatype EventType =
    | FriendMessageType | GroupMessageType | TempMessageType
    | BotOnlineType | BotOfflineType
    | BotGroupPermissionChangeType | BotMutedType | BotUnmutedType
    | BotJoinGroupType | BotQuitType | BotKickedType
    | GroupRecallType | FriendRecallType
    | GroupNameChangeType | GroupEntranceAnnouncementChangeType | GroupConfigType
    | MemberJoinType | MemberQuitType | MemberKickedType | MemberCardChangeType
    | MemberSpecialTitleChangeType | MemberPermissionChangeType
    | MemberMutedType | MemberUnmutedType
    | NewFriendRequestType | MemberJoinRequestType | BotInvitedJoinGroupRequestType

  datatype BotOnlineSubType = Login | Relogin

  datatype BotOfflineSubType = Active | Forced | Dropped

  datatype GroupConfigSubType = MuteAll | AnonymousChat | ConfessTalk | MemberInvite

  /** The wire names, as constants so that the tables below compare names rather than
      spell them out. */
  const FriendMessageName: string := "FriendMessage"
  const GroupMessageName: string := "GroupMessage"
  const TempMessageName: string := "TempMessage"
  const BotOnlineEventName: string := "BotOnlineEvent"
  const BotReloginEventName: string := "BotReloginEvent"
  const BotOfflineEventActiveName: string := "BotOfflineEventActive"
  const BotOfflineEventForceName: string := "BotOfflineEventForce"
  const BotOfflineEventDroppedName: string := "BotOfflineEventDropped"
  const BotGroupPermissionChangeEventName: string := "BotGroupPermissionChangeEvent"
  const BotMuteEventName: string := "BotMuteEvent"
  const BotUnmuteEventName: string := "BotUnmuteEvent"
  const BotJoinGroupEventName: string := "BotJoinGroupEvent"
  const BotLeaveEventActiveName: string := "BotLeaveEventActive"
  const BotLeaveEventKickName: string := "BotLeaveEventKick"
  const GroupRecallEventName: string := "GroupRecallEvent"
  const FriendRecallEventName: string := "FriendRecallEvent"
  const GroupNameChangeEventName: string := "GroupNameChangeEvent"
  const GroupEntranceAnnouncementChangeEventName: string := "GroupEntranceAnnouncementChangeEvent"
  const GroupMuteAllEventName: string := "GroupMuteAllEvent"
  const GroupAllowAnonymousChatEventName: string := "GroupAllowAnonymousChatEvent"
  const GroupAllowConfessTalkEventName: string := "GroupAllowConfessTalkEvent"
  const GroupAllowMemberInviteEventName: string := "GroupAllowMemberInviteEvent"
  const MemberJoinEventName: string := "MemberJoinEvent"
  const MemberLeaveEventQuitName: string := "MemberLeaveEventQuit"
  const MemberLeaveEventKickName: string := "MemberLeaveEventKick"
  const MemberCardChangeEventName: string := "MemberCardChangeEvent"
  const MemberSpecialTitleChangeEventName: string := "MemberSpecialTitleChangeEvent"
  const MemberPermissionChangeEventName: string := "MemberPermissionChangeEvent"
  const MemberMuteEventName: string := "MemberMuteEvent"
  const MemberUnmuteEventName: string := "MemberUnmuteEvent"
  const NewFriendRequestEventName: string := "NewFriendRequestEvent"
  const MemberJoinRequestEventName: string := "MemberJoinRequestEvent"
  const BotInvitedJoinGroupRequestEventName: string := "BotInvitedJoinGroupRequestEvent"

  /** The "type" strings the server uses for each event type. Several names share a
      type: the online and relogin notices, the three offline causes, the four
      group-setting changes. */
  predicate IsNameOf(t: EventType, name: string)
  {
    match t
    case FriendMessageType => name == FriendMessageName
    case GroupMessageType => name == GroupMessageName
    case TempMessageType => name == TempMessageName
    case BotOnlineType => name == BotOnlineEventName || name == BotReloginEventName
    case BotOfflineType =>
      name == BotOfflineEventActiveName || name == BotOfflineEventForceName || name == BotOfflineEventDroppedName
    case BotGroupPermissionChangeType => name == BotGroupPermissionChangeEventName
    case BotMutedType => name == BotMuteEventName
    case BotUnmutedType => name == BotUnmuteEventName
    case BotJoinGroupType => name == BotJoinGroupEventName
    case BotQuitType => name == BotLeaveEventActiveName
    case BotKickedType => name == BotLeaveEventKickName
    case GroupRecallType => name == GroupRecallEventName
    case FriendRecallType => name == FriendRecallEventName
    case GroupNameChangeType => name == GroupNameChangeEventName
    case GroupEntranceAnnouncementChangeType => name == GroupEntranceAnnouncementChangeEventName
    case GroupConfigType =>
      name == GroupMuteAllEventName || name == GroupAllowAnonymousChatEventName
      || name == GroupAllowConfessTalkEventName || name == GroupAllowMemberInviteEventName
    case MemberJoinType => name == MemberJoinEventName
    case MemberQuitType => name == MemberLeaveEventQuitName
    case MemberKickedType => name == MemberLeaveEventKickName
    case MemberCardChangeType => name == MemberCardChangeEventName
    case MemberSpecialTitleChangeType => name == MemberSpecialTitleChangeEventName
    case MemberPermissionChangeType => name == MemberPermissionChangeEventName
    case MemberMutedType => name == MemberMuteEventName
    case MemberUnmutedType => name == MemberUnmuteEventName
    case NewFriendRequestType => name == NewFriendRequestEventName
    case MemberJoinRequestType => name == MemberJoinRequestEventName
    case BotInvitedJoinGroupRequestType => name == BotInvitedJoinGroupRequestEventName
  }

  /** One name of each type, the one the server sends for its plainest form. */
  function PrimaryName(t: EventType): (name: string)
    ensures IsNameOf(t, name)
  {
    match t
    case FriendMessageType => FriendMessageName
    case GroupMessageType => GroupMessageName
    case TempMessageType => TempMessageName
    case BotOnlineType => BotOnlineEventName
    case BotOfflineType => BotOfflineEventActiveName
    case BotGroupPermissionChangeType => BotGroupPermissionChangeEventName
    case BotMutedType => BotMuteEventName
    case BotUnmutedType => BotUnmuteEventName
    case BotJoinGroupType => BotJoinGroupEventName
    case BotQuitType => BotLeaveEventActiveName
    case BotKickedType => BotLeaveEventKickName
    case GroupRecallType => GroupRecallEventName
    case FriendRecallType => FriendRecallEventName
    case GroupNameChangeType => GroupNameChangeEventName
    case GroupEntranceAnnouncementChangeType => GroupEntranceAnnouncementChangeEventName
    case GroupConfigType => GroupMuteAllEventName
    case MemberJoinType => MemberJoinEventName
    case MemberQuitType => MemberLeaveEventQuitName
    case MemberKickedType => MemberLeaveEventKickName
    case MemberCardChangeType => MemberCardChangeEventName
    case MemberSpecialTitleChangeType => MemberSpecialTitleChangeEventName
    case MemberPermissionChangeType => MemberPermissionChangeEventName
    case MemberMutedType => MemberMuteEventName
    case MemberUnmutedType => MemberUnmuteEventName
    case NewFriendRequestType => NewFriendRequestEventName
    case MemberJoinRequestType => MemberJoinRequestEventName
    case BotInvitedJoinGroupRequestType => BotInvitedJoinGroupRequestEventName
  }

  /** The dispatch is one chain of comparisons in source order; it is split here into
      five consecutive runs, each the table for one band of types. */
  function Band(t: EventType): (k: nat)
    ensures k <= 4
  {
    match t
    case GroupMessageType | FriendMessageType | TempMessageType => 0
    case BotOnlineType | BotOfflineType | BotGroupPermissionChangeType | BotMutedType | BotUnmutedType | BotJoinGroupType | BotQuitType | BotKickedType => 1
    case GroupRecallType | FriendRecallType | GroupNameChangeType | GroupEntranceAnnouncementChangeType | GroupConfigType => 2
    case MemberJoinType | MemberKickedType | MemberQuitType | MemberCardChangeType | MemberSpecialTitleChangeType | MemberPermissionChangeType | MemberMutedType | MemberUnmutedType => 3
    case NewFriendRequestType | MemberJoinRequestType | BotInvitedJoinGroupRequestType => 4
  }

  /** The run of the dispatch chain for the message events. */
  function MessageTypeFromName(name: string): (r: Option<EventType>)
    ensures r.Some? ==> IsNameOf(r.value, name) && Band(r.value) == 0
    ensures r.None? ==> forall t :: Band(t) == 0 ==> !IsNameOf(t, name)
  {
    if name == GroupMessageName then Some(GroupMessageType)
    else if name == FriendMessageName then Some(FriendMessageType)
    else if name == TempMessageName then Some(TempMessageType)
    else None
  }

  /** The run of the dispatch chain for the bot's own events. */
  function BotTypeFromName(name: string): (r: Option<EventType>)
    ensures r.Some? ==> IsNameOf(r.value, name) && Band(r.value) == 1
    ensures r.None? ==> forall t :: Band(t) == 1 ==> !IsNameOf(t, name)
  {
    if name == BotOnlineEventName || name == BotReloginEventName then Some(BotOnlineType)
    else if name == BotOfflineEventActiveName || name == BotOfflineEventForceName || name == BotOfflineEventDroppedName then Some(BotOfflineType)
    else if name == BotGroupPermissionChangeEventName then Some(BotGroupPermissionChangeType)
    else if name == BotMuteEventName then Some(BotMutedType)
    else if name == BotUnmuteEventName then Some(BotUnmutedType)
    else if name == BotJoinGroupEventName then Some(BotJoinGroupType)
    else if name == BotLeaveEventActiveName then Some(BotQuitType)
    else if name == BotLeaveEventKickName then Some(BotKickedType)
    else None
  }

  /** The run of the dispatch chain for the recall and group events. */
  function GroupTypeFromName(name: string): (r: Option<EventType>)
    ensures r.Some? ==> IsNameOf(r.value, name) && Band(r.value) == 2
    ensures r.None? ==> forall t :: Band(t) == 2 ==> !IsNameOf(t, name)
  {
    if name == GroupRecallEventName then Some(GroupRecallType)
    else if name == FriendRecallEventName then Some(FriendRecallType)
    else if name == GroupNameChangeEventName then Some(GroupNameChangeType)
    else if name == GroupEntranceAnnouncementChangeEventName then Some(GroupEntranceAnnouncementChangeType)
    else if name == GroupMuteAllEventName || name == GroupAllowAnonymousChatEventName || name == GroupAllowConfessTalkEventName || name == GroupAllowMemberInviteEventName then Some(GroupConfigType)
    else None
  }

  /** The run of the dispatch chain for the member events. */
  function MemberTypeFromName(name: string): (r: Option<EventType>)
    ensures r.Some? ==> IsNameOf(r.value, name) && Band(r.value) == 3
    ensures r.None? ==> forall t :: Band(t) == 3 ==> !IsNameOf(t, name)
  {
    if name == MemberJoinEventName then Some(MemberJoinType)
    else if name == MemberLeaveEventKickName then Some(MemberKickedType)
    else if name == MemberLeaveEventQuitName then Some(MemberQuitType)
    else if name == MemberCardChangeEventName then Some(MemberCardChangeType)
    else if name == MemberSpecialTitleChangeEventName then Some(MemberSpecialTitleChangeType)
    else if name == MemberPermissionChangeEventName then Some(MemberPermissionChangeType)
    else if name == MemberMuteEventName then Some(MemberMutedType)
    else if name == MemberUnmuteEventName then Some(MemberUnmutedType)
    else None
  }

  /** The run of the dispatch chain for the request events. */
  function RequestTypeFromName(name: string): (r: Option<EventType>)
    ensures r.Some? ==> IsNameOf(r.value, name) && Band(r.value) == 4
    ensures r.None? ==> forall t :: Band(t) == 4 ==> !IsNameOf(t, name)
  {
    if name == NewFriendRequestEventName then Some(NewFriendRequestType)
    else if name == MemberJoinRequestEventName then Some(MemberJoinRequestType)
    else if name == BotInvitedJoinGroupRequestEventName then Some(BotInvitedJoinGroupRequestType)
    else None
  }

  /** The dispatch table of `Event::from_json`: the event type a "type" string selects,
      if any. */
  function EventTypeFromName(name: string): (r: Option<EventType>)
    ensures r.Some? ==> IsNameOf(r.value, name)
    ensures r.None? ==> forall t :: !IsNameOf(t, name)
  {
    var m := MessageTypeFromName(name);
    if m.Some? then m
    else
      var b := BotTypeFromName(name);
      if b.Some? then b
      else
        var g := GroupTypeFromName(name);
        if g.Some? then g
        else
          var u := MemberTypeFromName(name);
          if u.Some? then u else RequestTypeFromName(name)
  }

  /** Each name of the message events selects its own type. */
  lemma SelectsBand0(t: EventType, name: string)
    requires Band(t) == 0 && IsNameOf(t, name)
    ensures EventTypeFromName(name) == Some(t)
  {
  }

  /** Each name of the bot's own events selects its own type. */
  lemma SelectsBand1(t: EventType, name: string)
    requires Band(t) == 1 && IsNameOf(t, name)
    ensures EventTypeFromName(name) == Some(t)
  {
  }

  /** Each name of the recall and group events selects its own type. */
  lemma SelectsBand2(t: EventType, name: string)
    requires Band(t) == 2 && IsNameOf(t, name)
    ensures EventTypeFromName(name) == Some(t)
  {
  }

  /** Each name of the member events selects its own type. */
  lemma SelectsBand3(t: EventType, name: string)
    requires Band(t) == 3 && IsNameOf(t, name)
    ensures EventTypeFromName(name) == Some(t)
  {
  }

  /** Each name of the request events selects its own type. */
  lemma SelectsBand4(t: EventType, name: string)
    requires Band(t) == 4 && IsNameOf(t, name)
    ensures EventTypeFromName(name) == Some(t)
  {
  }

  /** Every name of every type selects that type; with `PrimaryName` this makes each
      concrete event reachable from at least one accepted string. */
  lemma EventTypeFromNameComplete(t: EventType, name: string)
    requires IsNameOf(t, name)
    ensures EventTypeFromName(name) == Some(t)
  {
    match Band(t)
    case 0 => SelectsBand0(t, name);
    case 1 => SelectsBand1(t, name);
    case 2 => SelectsBand2(t, name);
    case 3 => SelectsBand3(t, name);
    case 4 => SelectsBand4(t, name);
  }

  /** No string names two types. */
  lemma EventNamesDisjoint(a: EventType, b: EventType, name: string)
    requires IsNameOf(a, name) && IsNameOf(b, name)
    ensures a == b
  {
    EventTypeFromNameComplete(a, name);
    EventTypeFromNameComplete(b, name);
  }

  /** `BotOnlineEvent::from_json`: the login subtype exactly for "BotOnlineEvent", the
      relogin subtype for every other name. */
  function BotOnlineSubtypeOf(name: string): (s: BotOnlineSubType)
    ensures s == Login <==> name == BotOnlineEventName
  {
    if name == BotOnlineEventName then Login else Relogin
  }

  function BotOnlineSubtypeName(s: BotOnlineSubType): (name: string)
    ensures IsNameOf(BotOnlineType, name)
  {
    match s
    case Login => BotOnlineEventName
    case Relogin => BotReloginEventName
  }

  /** `BotOfflineEvent::from_json`: the subtype from the name; other names end the
      program, so they are excluded here. */
  function BotOfflineSubtypeOf(name: string): (s: BotOfflineSubType)
    requires IsNameOf(BotOfflineType, name)
    ensures BotOfflineSubtypeName(s) == name
  {
    if name == BotOfflineEventActiveName then Active
    else if name == BotOfflineEventForceName then Forced
    else Dropped
  }

  function BotOfflineSubtypeName(s: BotOfflineSubType): (name: string)
    ensures IsNameOf(BotOfflineType, name)
  {
    match s
    case Active => BotOfflineEventActiveName
    case Forced => BotOfflineEventForceName
    case Dropped => BotOfflineEventDroppedName
  }

  /** `GroupConfigEvent::from_json`: the subtype from the name; other names end the
      program, so they are excluded here. */
  function GroupConfigSubtypeOf(name: string): (s: GroupConfigSubType)
    requires IsNameOf(GroupConfigType, name)
    ensures GroupConfigSubtypeName(s) == name
  {
    if name == GroupMuteAllEventName then MuteAll
    else if name == GroupAllowAnonymousChatEventName then AnonymousChat
    else if name == GroupAllowConfessTalkEventName then ConfessTalk
    else MemberInvite
  }

  function GroupConfigSubtypeName(s: GroupConfigSubType): (name: string)
    ensures IsNameOf(GroupConfigType, name)
  {
    match s
    case MuteAll => GroupMuteAllEventName
    case AnonymousChat => GroupAllowAnonymousChatEventName
    case ConfessTalk => GroupAllowConfessTalkEventName
    case MemberInvite => GroupAllowMemberInviteEventName
  }

  /** Each subtype is read back from its own name. */
  lemma SubtypeNamesRoundTrip(on: BotOnlineSubType, off: BotOfflineSubType, cfg: GroupConfigSubType)
    ensures BotOnlineSubtypeOf(BotOnlineSubtypeName(on)) == on
    ensures BotOfflineSubtypeOf(BotOfflineSubtypeName(off)) == off
    ensures GroupConfigSubtypeOf(GroupConfigSubtypeName(cfg)) == cfg
  {
    assert GroupMuteAllEventName[5] != GroupAllowConfessTalkEventName[5];
    assert GroupAllowAnonymousChatEventName[10] != GroupAllowMemberInviteEventName[10];
  }
}
