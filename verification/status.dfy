/** Status codes returned by the HTTP API, their descriptions, and the check that
    turns a failure code into an exception. Two revisions of the description table
    exist; both are modelled. */
module Status {

  /** MiraiStatus is an `enum class` over int: any int may be stored in it, the named
      codes are the ones below. */
  type MiraiStatus = int

  const Success: MiraiStatus := 0
  const IncorrectAuthKey: MiraiStatus := 1
  const BotNotExist: MiraiStatus := 2
  const SessionInvalidOrNotExist: MiraiStatus := 3
  const SessionNotAuthorizedOrNotVerified: MiraiStatus := 4
  const TargetNotExist: MiraiStatus := 5
  const FileNotExist: MiraiStatus := 6
  const NoPermission: MiraiStatus := 10
  const BotMuted: MiraiStatus := 20
  const MessageTooLong: MiraiStatus := 30
  const ErroneousAccess: MiraiStatus := 400

  /** The eleven named codes. */
  const KnownCodes: set<MiraiStatus> := {0, 1, 2, 3, 4, 5, 6, 10, 20, 30, 400}

  const UnknownDescription := "未知的错误"

  /** `get_description` of the current revision. */
  function Description(code: MiraiStatus): string
  {
    match code
    case 0 => "正常"
    case 1 => "错误的 auth key"
    case 2 => "指定的 Bot 不存在"
    case 3 => "Session 失效或不存在"
    case 4 => "Session 未认证 (未激活)"
    case 5 => "发送消息目标不存在 (指定对象不存在)"
    case 6 => "指定文件不存在，出现于发送本地图片"
    case 10 => "无操作权限，指 Bot 没有对应操作的限权"
    case 20 => "Bot 被禁言，指 Bot 当前无法向指定群发送消息"
    case 30 => "消息过长"
    case 400 => "错误的访问，如参数错误等"
    case _ => UnknownDescription
  }

  /** `get_description` of the earlier revision, whose texts have no spaces around the
      Latin words and parentheses. */
  function DescriptionEarlier(code: MiraiStatus): string
  {
    match code
    case 0 => "正常"
    case 1 => "错误的auth key"
    case 2 => "指定的Bot不存在"
    case 3 => "Session失效或不存在"
    case 4 => "Session未认证(未激活)"
    case 5 => "发送消息目标不存在(指定对象不存在)"
    case 6 => "指定文件不存在，出现于发送本地图片"
    case 10 => "无操作权限，指Bot没有对应操作的限权"
    case 20 => "Bot被禁言，指Bot当前无法向指定群发送消息"
    case 30 => "消息过长"
    case 400 => "错误的访问，如参数错误等"
    case _ => UnknownDescription
  }

  /** Every named code has a description of its own, different from the one used for
      codes outside the table; `success` reads "正常". */
  lemma DescriptionTable(a: MiraiStatus, b: MiraiStatus)
    ensures Description(Success) == "正常"
    ensures a !in KnownCodes ==> Description(a) == UnknownDescription
    ensures a in KnownCodes ==> Description(a) != UnknownDescription
    ensures a in KnownCodes && b in KnownCodes ==> (Description(a) == Description(b) <==> a == b)
  {
  }

  /** The two revisions have the same case structure: a code is named in one exactly
      when it is named in the other, both fall back to "未知的错误", and the texts that
      contain no Latin words or parentheses are identical. */
  lemma RevisionsShareCaseStructure(code: MiraiStatus)
    ensures (Description(code) == UnknownDescription) <==> (DescriptionEarlier(code) == UnknownDescription)
    ensures (Description(code) == UnknownDescription) <==> code !in KnownCodes
    ensures code in {0, 6, 30, 400} ==> Description(code) == DescriptionEarlier(code)
  {
  }

  /** MiraiException: a runtime_error whose message is the code's description. */
  datatype MiraiException = MiraiException(statusCode: MiraiStatus, what: string)

  function NewMiraiException(code: MiraiStatus): (e: MiraiException)
    ensures e.statusCode == code
    ensures e.what == Description(code)
  {
    MiraiException(code, Description(code))
  }

  datatype CheckOutcome = Pass | Throw(exception: MiraiException)

  /** `check_status_code`: throws the code's MiraiException unless the code is success. */
  function CheckStatusCode(code: MiraiStatus): (r: CheckOutcome)
    ensures r.Pass? <==> code == Success
    ensures r.Throw? ==> r.exception.statusCode == code && r.exception.what == Description(code)
  {
    if code != Success then Throw(NewMiraiException(code)) else Pass
  }

  /** HttpStatusException keeps the status and reason it was built with. */
  datatype HttpStatusException = HttpStatusException(statusCode: nat, reason: string)
}
