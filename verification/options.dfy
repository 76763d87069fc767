/**
 The daemon's option record, its compiled-in defaults (`initialise_options`) and the
 `key=value` command-line validator (`parse_options`) of src/context.c.

 The character-array capacities of the record (the `sizeof` of each field) and the
 compiled-in default values are parameters: `Layout` and `Defaults`.
 */
module Options {
  import opened Maybe
  import opened CStrings

  /** Ranges of the C integer types the fields are stored in. */
  const U8: nat := 0x100
  const U16: nat := 0x1_0000
  const U32: nat := 0x1_0000_0000

  /** The exclusive upper bound the port check uses. */
  const PortLimit: nat := 65635
  /** The username check is a literal `strlen(q) < 31`, independent of the field's capacity. */
  const UsernameLimit: nat := 31

  /** `AF_UNIX` and `AF_LOCAL` are the same constant. */
  datatype Domain = Unix | Inet

  /** Only `SOCK_STREAM` is supported. */
  datatype Protocol = Stream

  /** Capacities, in characters including the terminating NUL, of the record's arrays. */
  datatype Capacities = Capacities(
    mqName: nat,
    logFile: nat,
    socketPath: nat,
    socketPermissions: nat,
    peerUsername: nat,
    peerProcessName: nat,
    peerCliArgs: nat)

  /**
   Every array holds at least its NUL, and each capacity fits the unsigned variable the
   parser copies it into (`uint16_t` for the queue and log names, `uint8_t` for the socket path).
   */
  predicate ValidCapacities(l: Capacities) {
    && 1 <= l.mqName < U16
    && 1 <= l.logFile < U16
    && 1 <= l.socketPath < U8
    && 1 <= l.socketPermissions
    && 1 <= l.peerUsername
    && 1 <= l.peerProcessName
    && 1 <= l.peerCliArgs
  }

  type Layout = l: Capacities | ValidCapacities(l) witness Capacities(1, 1, 1, 1, 1, 1, 1)

  /** The compiled-in defaults `IPC_*`. */
  datatype Defaults = Defaults(
    mqName: string,
    logFile: string,
    socketPath: string,
    domain: Domain,
    protocol: Protocol,
    port: nat,
    maxConnections: nat,
    socketPermissions: string,
    peerUsername: string,
    peerUid: nat,
    peerGid: nat,
    peerPid: nat)

  /** The defaults copied with `strcpy` must fit their arrays (otherwise the copy overflows). */
  predicate DefaultsFit(l: Layout, d: Defaults) {
    |d.socketPermissions| < l.socketPermissions && |d.peerUsername| < l.peerUsername
  }

  datatype Options = Options(
    mqName: string,
    logFile: string,
    socketPath: string,
    domain: Domain,
    protocol: Protocol,
    port: nat,             // uint16_t
    maxConnections: nat,   // uint8_t
    socketPermissions: string,
    peerUsername: string,
    peerUid: nat,          // unsigned int
    peerGid: nat,          // unsigned int
    peerPid: nat,          // unsigned int
    peerProcessName: string,
    peerCliArgs: string)

  /**
   The record's representation invariant: every string leaves room for its NUL and
   every integer lies in the range of its C type.
   */
  predicate Fits(l: Layout, o: Options) {
    && |o.mqName| < l.mqName
    && |o.logFile| < l.logFile
    && |o.socketPath| < l.socketPath
    && |o.socketPermissions| < l.socketPermissions
    && |o.peerUsername| < l.peerUsername
    && |o.peerProcessName| < l.peerProcessName
    && |o.peerCliArgs| < l.peerCliArgs
    && o.port < U16
    && o.maxConnections < U8
    && o.peerUid < U32
    && o.peerGid < U32
    && o.peerPid < U32
  }

  /**
   `initialise_options`. The three peer identifiers are filled from the defaults in a
   rotated order: uid from the pid default, gid from the uid default, pid from the gid default.
   */
  function InitialiseOptions(l: Layout, d: Defaults): (o: Options)
    requires DefaultsFit(l, d)
    ensures Fits(l, o)
    ensures o.mqName <= d.mqName && o.logFile <= d.logFile && o.socketPath <= d.socketPath
    ensures |d.mqName| < l.mqName ==> o.mqName == d.mqName
    ensures |d.logFile| < l.logFile ==> o.logFile == d.logFile
    ensures |d.socketPath| < l.socketPath ==> o.socketPath == d.socketPath
    ensures |d.mqName| >= l.mqName ==> o.mqName == d.mqName[..l.mqName - 1]
    ensures |d.logFile| >= l.logFile ==> o.logFile == d.logFile[..l.logFile - 1]
    ensures |d.socketPath| >= l.socketPath ==> o.socketPath == d.socketPath[..l.socketPath - 1]
    ensures o.domain == d.domain && o.protocol == d.protocol
    ensures d.port < U16 ==> o.port == d.port
    ensures d.maxConnections < U8 ==> o.maxConnections == d.maxConnections
    ensures o.socketPermissions == d.socketPermissions && o.peerUsername == d.peerUsername
    ensures d.peerPid < U32 ==> o.peerUid == d.peerPid
    ensures d.peerUid < U32 ==> o.peerGid == d.peerUid
    ensures d.peerGid < U32 ==> o.peerPid == d.peerGid
    ensures o.peerProcessName == [] && o.peerCliArgs == []
  {
    Options(
      mqName := StoreBounded(d.mqName, l.mqName),
      logFile := StoreBounded(d.logFile, l.logFile),
      socketPath := StoreBounded(d.socketPath, l.socketPath),
      domain := d.domain,
      protocol := d.protocol,
      port := d.port % U16,
      maxConnections := d.maxConnections % U8,
      socketPermissions := d.socketPermissions,
      peerUsername := d.peerUsername,
      peerUid := d.peerPid % U32,
      peerGid := d.peerUid % U32,
      peerPid := d.peerGid % U32,
      peerProcessName := "",
      peerCliArgs := "")
  }

  /** Why a token was refused; each is a distinct `LOG_FATAL` branch followed by `return false`. */
  datatype ParseError =
    | MissingSeparator
    | InvalidMqName
    | InvalidSocketPath
    | InvalidLogFile
    | InvalidDomain
    | InvalidProtocol
    | InvalidPort
    | InvalidMaxConnections
    | InvalidSocketPermissions
    | InvalidUsername
    | InvalidUid
    | InvalidGid
    | InvalidPid
    | InvalidProcessName
    | InvalidCliArgs
    | UnknownKey(key: string)

  datatype Applied = Ok(options: Options) | Err(error: ParseError)

  /** The verdict of `parse_options` together with the record it leaves behind. */
  datatype Parsed = Parsed(ok: bool, options: Options)

  /** The recognised keys, in the order `parse_options` compares against them. */
  datatype Key =
    | MqName | SocketPath | LogFile | DomainKey | ProtocolKey | Port | MaxConnections
    | SocketPermissions | PeerUsername | PeerUid | PeerGid | PeerPid
    | PeerProcessName | PeerCliArgs

  /** The spelling of each key on the command line. */
  function KeyName(k: Key): (name: string) {
    match k
    case MqName => "mq_name"
    case SocketPath => "socket_path"
    case LogFile => "log_file"
    case DomainKey => "domain"
    case ProtocolKey => "protocol"
    case Port => "port"
    case MaxConnections => "max_connections"
    case SocketPermissions => "socket_permissions"
    case PeerUsername => "authorised_peer_username"
    case PeerUid => "authorised_peer_uid"
    case PeerGid => "authorised_peer_gid"
    case PeerPid => "authorised_peer_pid"
    case PeerProcessName => "authorised_peer_process_name"
    case PeerCliArgs => "authorised_peer_cli_args"
  }

  /** The command-line token `key=value`. */
  function Token(key: Key, value: string): (token: string) {
    KeyName(key) + "=" + value
  }

  /** The `strcmp` chain of `parse_options`: which key, if any, the text before `=` names. */
  function LookupKey(name: string): (r: Option<Key>)
    ensures r.Some? ==> KeyName(r.value) == name
  {
    if name == "mq_name" then Some(MqName)
    else if name == "socket_path" then Some(SocketPath)
    else if name == "log_file" then Some(LogFile)
    else if name == "domain" then Some(DomainKey)
    else if name == "protocol" then Some(ProtocolKey)
    else if name == "port" then Some(Port)
    else if name == "max_connections" then Some(MaxConnections)
    else if name == "socket_permissions" then Some(SocketPermissions)
    else if name == "authorised_peer_username" then Some(PeerUsername)
    else if name == "authorised_peer_uid" then Some(PeerUid)
    else if name == "authorised_peer_gid" then Some(PeerGid)
    else if name == "authorised_peer_pid" then Some(PeerPid)
    else if name == "authorised_peer_process_name" then Some(PeerProcessName)
    else if name == "authorised_peer_cli_args" then Some(PeerCliArgs)
    else None
  }

  /** The error each key's branch reports when it refuses its value. */
  function KeyError(key: Key): (e: ParseError)
    ensures e != MissingSeparator && !e.UnknownKey?
  {
    match key
    case MqName => InvalidMqName
    case SocketPath => InvalidSocketPath
    case LogFile => InvalidLogFile
    case DomainKey => InvalidDomain
    case ProtocolKey => InvalidProtocol
    case Port => InvalidPort
    case MaxConnections => InvalidMaxConnections
    case SocketPermissions => InvalidSocketPermissions
    case PeerUsername => InvalidUsername
    case PeerUid => InvalidUid
    case PeerGid => InvalidGid
    case PeerPid => InvalidPid
    case PeerProcessName => InvalidProcessName
    case PeerCliArgs => InvalidCliArgs
  }

  /** `o'` differs from `o` at most in the field that `key` sets. */
  predicate OnlyFieldOf(key: Key, o: Options, o': Options) {
    match key
    case MqName => o' == o.(mqName := o'.mqName)
    case SocketPath => o' == o.(socketPath := o'.socketPath)
    case LogFile => o' == o.(logFile := o'.logFile)
    case DomainKey => o' == o.(domain := o'.domain)
    case ProtocolKey => o' == o.(protocol := o'.protocol)
    case Port => o' == o.(port := o'.port)
    case MaxConnections => o' == o.(maxConnections := o'.maxConnections)
    case SocketPermissions => o' == o.(socketPermissions := o'.socketPermissions)
    case PeerUsername => o' == o.(peerUsername := o'.peerUsername)
    case PeerUid => o' == o.(peerUid := o'.peerUid)
    case PeerGid => o' == o.(peerGid := o'.peerGid)
    case PeerPid => o' == o.(peerPid := o'.peerPid)
    case PeerProcessName => o' == o.(peerProcessName := o'.peerProcessName)
    case PeerCliArgs => o' == o.(peerCliArgs := o'.peerCliArgs)
  }

  /**
   One branch of the loop body of `parse_options`: validate `value` for `key` and store it.
   A refusal reports the key's own error; an acceptance changes only the key's field.
   */
  function ApplyOption(l: Layout, o: Options, key: Key, value: string): (r: Applied)
    ensures r.Err? ==> r.error == KeyError(key)
    ensures r.Ok? ==> OnlyFieldOf(key, o, r.options)
  {
    match key
    case MqName =>
      if FirstChar(value) != '/' && |value| >= l.mqName then Err(InvalidMqName)
      else Ok(o.(mqName := StoreBounded(value, l.mqName)))
    case SocketPath =>
      if |value| >= l.socketPath then Err(InvalidSocketPath)
      else Ok(o.(socketPath := StoreBounded(value, l.socketPath)))
    case LogFile =>
      if |value| >= l.logFile then Err(InvalidLogFile)
      else Ok(o.(logFile := StoreBounded(value, l.logFile)))
    case DomainKey =>
      if value == "AF_UNIX" || value == "AF_LOCAL" then Ok(o.(domain := Unix))
      else if value == "AF_INET" then Ok(o.(domain := Inet))
      else Err(InvalidDomain)
    case ProtocolKey =>
      if value == "SOCK_STREAM" then Ok(o.(protocol := Stream)) else Err(InvalidProtocol)
    case Port =>
      var port := ToInt(StrToL(value));
      if 1 < port < PortLimit then Ok(o.(port := port % U16)) else Err(InvalidPort)
    case MaxConnections =>
      var n := ToInt(StrToL(value));
      if n > 0 then Ok(o.(maxConnections := n % U8)) else Err(InvalidMaxConnections)
    case SocketPermissions =>
      if |value| == l.socketPermissions - 1 && AllDigits(value)
      then Ok(o.(socketPermissions := StoreBounded(value, l.socketPermissions)))
      else Err(InvalidSocketPermissions)
    case PeerUsername =>
      if |value| < UsernameLimit then Ok(o.(peerUsername := StoreBounded(value, l.peerUsername)))
      else Err(InvalidUsername)
    case PeerUid =>
      if AllDigits(value) then Ok(o.(peerUid := StrToL(value) % U32)) else Err(InvalidUid)
    case PeerGid =>
      if AllDigits(value) then Ok(o.(peerGid := StrToL(value) % U32)) else Err(InvalidGid)
    case PeerPid =>
      if AllDigits(value) then Ok(o.(peerPid := StrToL(value) % U32)) else Err(InvalidPid)
    case PeerProcessName =>
      if |value| >= l.peerProcessName then Err(InvalidProcessName)
      else Ok(o.(peerProcessName := StoreBounded(value, l.peerProcessName)))
    case PeerCliArgs =>
      if |value| >= l.peerCliArgs then Err(InvalidCliArgs)
      else Ok(o.(peerCliArgs := StoreBounded(value, l.peerCliArgs)))
  }

  /** Every accepted key stores a value that keeps the record's representation invariant. */
  lemma ApplyOptionKeepsFits(l: Layout, o: Options, key: Key, value: string)
    ensures var r := ApplyOption(l, o, key, value);
      Fits(l, o) && r.Ok? ==> Fits(l, r.options)
  {
    match key
    case MqName =>
    case SocketPath =>
    case LogFile =>
    case DomainKey =>
    case ProtocolKey =>
    case Port =>
    case MaxConnections =>
    case SocketPermissions =>
    case PeerUsername =>
    case PeerUid =>
    case PeerGid =>
    case PeerPid =>
    case PeerProcessName =>
    case PeerCliArgs =>
  }

  /**
   One iteration of `parse_options`: split the token at its first `=`, then apply it.
   Every accepted token keeps the record's representation invariant.
   */
  function ApplyToken(l: Layout, o: Options, token: string): (r: Applied)
    ensures Fits(l, o) && r.Ok? ==> Fits(l, r.options)
  {
    match IndexOf(token, '=')
    case None => Err(MissingSeparator)
    case Some(i) =>
      match LookupKey(token[..i])
      case None => Err(UnknownKey(token[..i]))
      case Some(key) =>
        ApplyOptionKeepsFits(l, o, key, token[i + 1..]);
        ApplyOption(l, o, key, token[i + 1..])
  }

  /**
   The loop of `parse_options` as a left fold of `step` that stops at the first refused
   token, keeping the record built so far.
   */
  function Fold(step: (Options, string) -> Applied, o: Options, tokens: seq<string>): (r: Parsed)
    decreases |tokens|
  {
    if |tokens| == 0 then Parsed(true, o)
    else match step(o, tokens[0])
      case Err(_) => Parsed(false, o)
      case Ok(o') => Fold(step, o', tokens[1..])
  }

  /** The validator `parse_options` applies to each token. */
  function Validator(l: Layout): (step: (Options, string) -> Applied) {
    (o: Options, token: string) => ApplyToken(l, o, token)
  }

  /** The fold of the validator keeps the record's representation invariant, accepted or not. */
  lemma {:induction false} FoldKeepsFits(l: Layout, o: Options, tokens: seq<string>)
    requires Fits(l, o)
    ensures Fits(l, Fold(Validator(l), o, tokens).options)
    decreases |tokens|
  {
    if |tokens| > 0 {
      var r := ApplyToken(l, o, tokens[0]);
      assert Validator(l)(o, tokens[0]) == r;
      if r.Ok? {
        FoldKeepsFits(l, r.options, tokens[1..]);
      }
    }
  }

  /**
   `parse_options` over the tokens after the program name. Whatever the verdict, the
   record it leaves satisfies the representation invariant when the record it started from did.
   */
  function Parse(l: Layout, o: Options, tokens: seq<string>): (r: Parsed)
    ensures Fits(l, o) ==> Fits(l, r.options)
  {
    var r := Fold(Validator(l), o, tokens);
    assert Fits(l, o) ==> Fits(l, r.options) by {
      if Fits(l, o) {
        FoldKeepsFits(l, o, tokens);
      }
    }
    r
  }

  /**
   `parse_options(options, argc, argv)` with the loop written as in C: the index starts
   at 1, skipping the program name.
   */
  method ParseOptions(l: Layout, o: Options, argv: seq<string>) returns (ok: bool, o': Options)
    ensures |argv| <= 1 ==> ok && o' == o
    ensures |argv| > 1 ==> Parsed(ok, o') == Parse(l, o, argv[1..])
  {
    o' := o;
    var i := 1;
    while i < |argv|
      invariant 1 <= i <= |argv| || |argv| == 0
      invariant |argv| <= 1 ==> o' == o
      invariant |argv| > 1 ==> Parse(l, o, argv[1..]) == Parse(l, o', argv[i..])
    {
      assert Validator(l)(o', argv[i]) == ApplyToken(l, o', argv[i]);
      match ApplyToken(l, o', argv[i])
      case Err(_) =>
        return false, o';
      case Ok(next) =>
        assert argv[i..][1..] == argv[i + 1..];
        o' := next;
        i := i + 1;
    }
    ok := true;
  }
}
