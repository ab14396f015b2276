/** The HTTP-level vocabulary shared by every route handler of the SoundBoard
    server: optional request fields, the fixed configuration limits, the
    error replies (status code and message) and handler outcomes. */
module Api {

  datatype Option<+T> = None | Some(value: T)

  /** JavaScript truthiness of an optional string field: `undefined` and the
      empty string are both falsy. */
  predicate Present(o: Option<string>)
  {
    o.Some? && o.value != ""
  }

  /** Largest accepted upload, in bytes (5 MB). */
  const MAX_FILE_SIZE: nat := 5 * 1024 * 1024

  /** Longest accepted clip, in seconds. */
  const MAX_DURATION: nat := 30

  /** Every error reply a handler can send; each has one status and one
      message. */
  datatype ApiError =
    | MissingRegistrationField
    | PasswordTooShort
    | UserAlreadyExists
    | RegisterFailed
    | MissingLoginField
    | BadCredentials
    | NotLoggedIn
    | UserNotFound
    | SessionExpired
    | MissingSoundField
    | FileTooLarge
    | DurationTooLong
    | SoundNotFound
    | DeleteSoundForbidden
    | UpdateSoundForbidden
    | MissingCollectionName
    | CollectionNotFound
    | CollectionForbidden
    | DeleteCollectionForbidden
    | AlreadyInCollection
    | AlreadyFavorited
    | ServerMisconfigured

  /** The status code sent with each error. */
  function Status(e: ApiError): (r: nat)
    ensures r in {400, 401, 403, 404, 500}
    ensures r == 500 <==> e == RegisterFailed || e == ServerMisconfigured
  {
    match e
    case MissingRegistrationField | PasswordTooShort | UserAlreadyExists
       | MissingLoginField | MissingSoundField | FileTooLarge | DurationTooLong
       | MissingCollectionName | AlreadyInCollection | AlreadyFavorited => 400
    case BadCredentials | NotLoggedIn | UserNotFound | SessionExpired => 401
    case DeleteSoundForbidden | UpdateSoundForbidden
       | CollectionForbidden | DeleteCollectionForbidden => 403
    case SoundNotFound | CollectionNotFound => 404
    case RegisterFailed | ServerMisconfigured => 500
  }

  /** Decimal rendering of a natural number, as a template literal prints it. */
  function DecimalString(n: nat): string
  {
    var digit := ['0' + (n % 10) as char];
    if n < 10 then digit else DecimalString(n / 10) + digit
  }

  /** The `error` field of each reply body. The size and duration messages
      are built from the configured limits. */
  function Message(e: ApiError): (r: string)
    ensures r != []
  {
    match e
    case MissingRegistrationField => "请填写完整信息"
    case PasswordTooShort => "密码至少6位"
    case UserAlreadyExists => "用户名或邮箱已存在"
    case RegisterFailed => "注册失败"
    case MissingLoginField => "请填写邮箱和密码"
    case BadCredentials => "邮箱或密码错误"
    case NotLoggedIn => "未登录"
    case UserNotFound => "用户不存在"
    case SessionExpired => "登录已过期，请重新登录"
    case MissingSoundField => "请填写音效名称和URL"
    case FileTooLarge => "文件大小不能超过 " + DecimalString(MAX_FILE_SIZE / 1024 / 1024) + "MB"
    case DurationTooLong => "音效时长不能超过 " + DecimalString(MAX_DURATION) + "秒"
    case SoundNotFound => "音效不存在"
    case DeleteSoundForbidden => "无权删除此音效"
    case UpdateSoundForbidden => "无权修改此音效"
    case MissingCollectionName => "请填写合集名称"
    case CollectionNotFound => "合集不存在"
    case CollectionForbidden => "无权操作此合集"
    case DeleteCollectionForbidden => "无权删除此合集"
    case AlreadyInCollection => "音效已在合集中"
    case AlreadyFavorited => "已收藏"
    case ServerMisconfigured => "服务器配置错误"
  }

  /** The limit messages name the configured limits: "5MB" and "30秒". */
  lemma LimitMessages()
    ensures Message(FileTooLarge) == "文件大小不能超过 5MB"
    ensures Message(DurationTooLong) == "音效时长不能超过 30秒"
  {
    assert MAX_FILE_SIZE / 1024 / 1024 == 5;
    assert DecimalString(5) == "5";
    assert DecimalString(3) == "3" && DecimalString(30) == DecimalString(3) + "0";
  }

  /** What a handler sends back: a success body or an error reply. */
  datatype Outcome<+T> = Ok(value: T) | Fail(error: ApiError)
}
