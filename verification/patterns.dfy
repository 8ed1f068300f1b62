/** Patterns for awaiting events: who sent it, from which temporary session, which
    message it replies to; and `match_with`, the short-circuit conjunction of several
    patterns over one event. */
module Patterns {
  import opened Wrappers
  import opened Ids
  import opened Info
  import Segments
  import opened SentMessages
  import opened EventNames
  import opened Events

  /** The four pattern kinds; `from(uid)`, `from(gid)`, `from(tid)` and
      `replying(mid)` are these constructors applied to the id as given. */
  datatype Pattern =
    | FromUser(user: UserId)
    | FromGroup(group: GroupId)
    | FromTemp(temp: TempId)
    | Replying(replied: MessageId)

  /** The events that have a user a `FromUser` pattern compares with: the sender of a
      friend message, the member of a member event, the executor of a bot mute
      event. */
  predicate HasSubject(e: Event)
  {
    e.FriendMessage? || IsMemberEvent(e) || e.BotMuted? || e.BotUnmuted?
  }

  /** `PatternFor<P, E>`: the pattern has a `match` for the event's type. A group
      pattern has none at all, and a group message has no user pattern, since the
      message-event base is neither a member-event nor an executor-event base. */
  predicate AppliesTo(p: Pattern, e: Event)
  {
    match p
    case FromUser(_) => HasSubject(e)
    case FromGroup(_) => false
    case FromTemp(_) => e.TempMessage?
    case Replying(_) => IsMessageEvent(e)
  }

  /** The same constraint stated on event types, as the `PatternFor<P, E>` concept
      states it on the static type E. */
  predicate PatternFor(p: Pattern, t: EventType)
  {
    match p
    case FromUser(_) => t == FriendMessageType || Band(t) == 3 || t == BotMutedType || t == BotUnmutedType
    case FromGroup(_) => false
    case FromTemp(_) => t == TempMessageType
    case Replying(_) => Band(t) == 0
  }

  /** Whether a pattern applies to an event depends on the event's type only. */
  lemma PatternForType(p: Pattern, e: Event)
    ensures AppliesTo(p, e) <==> PatternFor(p, TypeOf(e))
  {
    MessageTags(e);
    BotTags(e);
    GroupChangeTags(e);
    MemberTags(e);
    RequestTags(e);
  }

  /** The member-event overload is the one chosen for a member event, even for those
      that also carry an executor. */
  function Subject(e: Event): UserId
    requires HasSubject(e)
  {
    if e.FriendMessage? then e.friendSender.id
    else if IsMemberEvent(e) then e.member.id
    else e.actor.id
  }

  /** One pattern's `match`. */
  function Match(p: Pattern, e: Event): bool
    requires AppliesTo(p, e)
  {
    if p.FromUser? then Subject(e) == p.user
    else if p.FromTemp? then e.sender.id == p.temp.uid && e.sender.group.id == p.temp.gid
    else e.msg.quote.Some? && e.msg.quote.value.id == p.replied
  }

  /** A user pattern accepts exactly the events whose subject an at of that user
      would mention: the member's at for member events, the executor's at for the bot
      mute events, whatever display text the at carries. */
  lemma FromUserIsSubjectAt(e: Event, u: UserId, self: UserId, d: string)
    requires HasSubject(e)
    ensures e.FriendMessage? ==> (Match(FromUser(u), e) <==> e.friendSender.id == u)
    ensures IsMemberEvent(e) ==> (Match(FromUser(u), e) <==> Segments.SegmentEq(AtMember(e), Segments.At(u, d)))
    ensures e.BotMuted? || e.BotUnmuted? ==> (Match(FromUser(u), e)
      <==> Segments.SegmentEq(AtExecutor(e, self), Segments.At(u, d)))
  {
  }

  /** A temporary-session pattern accepts exactly the messages whose sender and group
      form a session id equal to its own under the session-id ordering. */
  lemma FromTempIsSessionEqual(e: Event, t: TempId)
    requires e.TempMessage?
    ensures Match(FromTemp(t), e) <==> CompareTempId(TempId(e.sender.id, e.sender.group.id), t) == Equal
  {
  }

  /** A reply pattern accepts exactly the messages with a quote equal, under quote
      equality, to any quote of the given message; a message without a quote is
      never accepted. */
  lemma ReplyingIsQuoteEqual(e: Event, m: MessageId, sender: UserId, quoted: seq<Segments.Segment>)
    requires IsMessageEvent(e)
    ensures e.msg.quote.None? ==> !Match(Replying(m), e)
    ensures e.msg.quote.Some? ==> (Match(Replying(m), e) <==> QuoteEq(e.msg.quote.value, Quote(m, sender, quoted)))
  {
  }

  /** Which patterns a given event admits: none of the group kind, only reply
      patterns for a group message, and only user patterns for events that are not
      messages. */
  lemma ApplicablePatterns(p: Pattern, e: Event)
    ensures p.FromGroup? ==> !AppliesTo(p, e)
    ensures e.GroupMessage? ==> (AppliesTo(p, e) <==> p.Replying?)
    ensures !IsMessageEvent(e) ==> (AppliesTo(p, e) <==> p.FromUser? && HasSubject(e))
  {
  }

  predicate AllApply(ps: seq<Pattern>, e: Event)
  {
    forall i :: 0 <= i < |ps| ==> AppliesTo(ps[i], e)
  }

  /** `match_with`: the patterns are tried left to right and the first failure
      decides. */
  function MatchWith(e: Event, ps: seq<Pattern>): (b: bool)
    requires AllApply(ps, e)
    ensures b <==> forall i :: 0 <= i < |ps| ==> Match(ps[i], e)
  {
    if |ps| == 0 then true else Match(ps[0], e) && MatchWith(e, ps[1..])
  }

  /** How many `match` calls the fold performs. */
  function Evaluated(e: Event, ps: seq<Pattern>): nat
    requires AllApply(ps, e)
  {
    if |ps| == 0 then 0
    else if !Match(ps[0], e) then 1
    else 1 + Evaluated(e, ps[1..])
  }

  /** When the conjunction holds every pattern was evaluated; when it fails, the
      evaluation stopped at the first failing pattern and none after it ran. */
  lemma {:induction false} ShortCircuit(e: Event, ps: seq<Pattern>)
    requires AllApply(ps, e)
    ensures MatchWith(e, ps) ==> Evaluated(e, ps) == |ps|
    ensures !MatchWith(e, ps) ==> (0 < Evaluated(e, ps) <= |ps| && !Match(ps[Evaluated(e, ps) - 1], e)
      && forall i :: 0 <= i < Evaluated(e, ps) - 1 ==> Match(ps[i], e))
  {
    if |ps| > 0 && Match(ps[0], e) {
      var rest := ps[1..];
      ShortCircuit(e, rest);
      assert forall i :: 0 <= i < |rest| ==> rest[i] == ps[i + 1];
    }
  }

  /** The result depends only on which patterns are supplied, not on their order or
      repetition. */
  lemma MatchWithOrderIndependent(e: Event, ps: seq<Pattern>, qs: seq<Pattern>)
    requires AllApply(ps, e) && AllApply(qs, e)
    requires forall x :: x in ps <==> x in qs
    ensures MatchWith(e, ps) == MatchWith(e, qs)
  {
    if MatchWith(e, ps) {
      forall j | 0 <= j < |qs|
        ensures Match(qs[j], e)
      {
        assert qs[j] in ps;
        var i :| 0 <= i < |ps| && ps[i] == qs[j];
      }
    } else if MatchWith(e, qs) {
      forall i | 0 <= i < |ps|
        ensures Match(ps[i], e)
      {
        assert ps[i] in qs;
        var j :| 0 <= j < |qs| && qs[j] == ps[i];
      }
    }
  }

  /** Reordering the patterns (a permutation) never changes the result. */
  lemma MatchWithPermutation(e: Event, ps: seq<Pattern>, qs: seq<Pattern>)
    requires AllApply(ps, e) && AllApply(qs, e)
    requires multiset(ps) == multiset(qs)
    ensures MatchWith(e, ps) == MatchWith(e, qs)
  {
    forall x | x in ps
      ensures x in qs
    {
      assert x in multiset(ps);
    }
    forall x | x in qs
      ensures x in ps
    {
      assert x in multiset(qs);
    }
    MatchWithOrderIndependent(e, ps, qs);
  }
}
