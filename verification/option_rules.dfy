/**
 Properties of `parse_options`: the acceptance rule and the stored value for every
 recognised key, the fatal cases, and the stop-at-first-error behaviour of the fold.
 */
module OptionRules {
  import opened Maybe
  import opened CStrings
  import opened Options

  /** The spellings of the server-side keys contain no `=`. */
  lemma ServerKeyNamesHaveNoSeparator()
    ensures '=' !in "mq_name" && '=' !in "socket_path" && '=' !in "log_file" && '=' !in "domain"
    ensures '=' !in "protocol" && '=' !in "port" && '=' !in "max_connections" && '=' !in "socket_permissions"
  {
  }

  /** The spellings of the peer keys contain no `=`. */
  lemma PeerKeyNamesHaveNoSeparator()
    ensures '=' !in "authorised_peer_username" && '=' !in "authorised_peer_uid"
    ensures '=' !in "authorised_peer_gid" && '=' !in "authorised_peer_pid"
    ensures '=' !in "authorised_peer_process_name" && '=' !in "authorised_peer_cli_args"
  {
  }

  /** No recognised key contains `=`. */
  lemma KeyNameHasNoSeparator(k: Key)
    ensures '=' !in KeyName(k)
  {
    ServerKeyNamesHaveNoSeparator();
    PeerKeyNamesHaveNoSeparator();
  }

  /** The `strcmp` chain finds every recognised key under its own spelling. */
  lemma LookupKeyName(k: Key)
    ensures LookupKey(KeyName(k)) == Some(k)
  {
    match k
    case MqName =>
    case SocketPath =>
    case LogFile =>
    case DomainKey =>
    case ProtocolKey =>
    case Port =>
    case MaxConnections =>
    case SocketPermissions =>
    case PeerUsername =>
    case PeerUid =>
    case PeerGid =>
    case PeerPid =>
    case PeerProcessName =>
    case PeerCliArgs =>
  }

  /** A token `key=value` for a recognised key is split at the `=` written after the key. */
  lemma {:induction false} SplitAtFirstSeparator(l: Layout, o: Options, k: Key, value: string)
    ensures ApplyToken(l, o, Token(k, value)) == ApplyOption(l, o, k, value)
  {
    var key := KeyName(k);
    var t := Token(k, value);
    KeyNameHasNoSeparator(k);
    assert t[|key|] == '=';
    assert forall i :: 0 <= i < |key| ==> t[i] == key[i];
    assert IndexOf(t, '=') == Some(|key|);
    assert t[..|key|] == key;
    assert t[|key| + 1..] == value;
    LookupKeyName(k);
  }

  /** A token without `=` is fatal, and parsing stops there leaving the record as it was. */
  lemma NoSeparatorRejected(l: Layout, o: Options, token: string, rest: seq<string>)
    requires forall i :: 0 <= i < |token| ==> token[i] != '='
    ensures ApplyToken(l, o, token) == Err(MissingSeparator)
    ensures Parse(l, o, [token] + rest) == Parsed(false, o)
  {
    assert ([token] + rest)[0] == token;
  }

  /** A name that spells no recognised key falls through the whole `strcmp` chain. */
  lemma UnrecognisedKeyNotFound(key: string)
    requires forall k :: key != KeyName(k)
    ensures LookupKey(key) == None
  {
    assert key != KeyName(MqName) && key != KeyName(SocketPath) && key != KeyName(LogFile);
    assert key != KeyName(DomainKey) && key != KeyName(ProtocolKey) && key != KeyName(Port);
    assert key != KeyName(MaxConnections) && key != KeyName(SocketPermissions);
    assert key != KeyName(PeerUsername) && key != KeyName(PeerUid) && key != KeyName(PeerGid);
    assert key != KeyName(PeerPid) && key != KeyName(PeerProcessName) && key != KeyName(PeerCliArgs);
  }

  /** A key that is not recognised is fatal, whatever its value. */
  lemma UnknownKeyRejected(l: Layout, o: Options, key: string, value: string, rest: seq<string>)
    requires forall i :: 0 <= i < |key| ==> key[i] != '='
    requires forall k :: key != KeyName(k)
    ensures ApplyToken(l, o, key + "=" + value) == Err(UnknownKey(key))
    ensures Parse(l, o, [key + "=" + value] + rest) == Parsed(false, o)
  {
    var t := key + "=" + value;
    assert t[|key|] == '=';
    assert forall i :: 0 <= i < |key| ==> t[i] == key[i];
    assert IndexOf(t, '=') == Some(|key|);
    assert t[..|key|] == key;
    UnrecognisedKeyNotFound(key);
    assert ([t] + rest)[0] == t;
  }

  /** The `mq_name` branch on its value alone. */
  lemma MqNameValue(l: Layout, o: Options, v: string)
    ensures ApplyOption(l, o, MqName, v) ==
      if (|v| == 0 || v[0] != '/') && |v| >= l.mqName then Err(InvalidMqName)
      else Ok(o.(mqName := v[..if |v| < l.mqName then |v| else l.mqName - 1]))
  {
  }

  /** The `socket_path` branch on its value alone. */
  lemma SocketPathValue(l: Layout, o: Options, v: string)
    ensures ApplyOption(l, o, SocketPath, v) ==
      if |v| < l.socketPath then Ok(o.(socketPath := v)) else Err(InvalidSocketPath)
  {
  }

  /** The `log_file` branch on its value alone. */
  lemma LogFileValue(l: Layout, o: Options, v: string)
    ensures ApplyOption(l, o, LogFile, v) ==
      if |v| < l.logFile then Ok(o.(logFile := v)) else Err(InvalidLogFile)
  {
  }

  /** The `authorised_peer_process_name` branch on its value alone. */
  lemma ProcessNameValue(l: Layout, o: Options, v: string)
    ensures ApplyOption(l, o, PeerProcessName, v) ==
      if |v| < l.peerProcessName then Ok(o.(peerProcessName := v)) else Err(InvalidProcessName)
  {
  }

  /** The `authorised_peer_cli_args` branch on its value alone. */
  lemma CliArgsValue(l: Layout, o: Options, v: string)
    ensures ApplyOption(l, o, PeerCliArgs, v) ==
      if |v| < l.peerCliArgs then Ok(o.(peerCliArgs := v)) else Err(InvalidCliArgs)
  {
  }

  /** The `authorised_peer_username` branch on its value alone. */
  lemma UsernameValue(l: Layout, o: Options, v: string)
    ensures ApplyOption(l, o, PeerUsername, v) ==
      if |v| < 31 then Ok(o.(peerUsername := v[..if |v| < l.peerUsername then |v| else l.peerUsername - 1]))
      else Err(InvalidUsername)
  {
  }

  /** The `socket_permissions` branch on its value alone. */
  lemma SocketPermissionsValue(l: Layout, o: Options, v: string)
    ensures ApplyOption(l, o, SocketPermissions, v) ==
      if |v| == l.socketPermissions - 1 && AllDigits(v) then Ok(o.(socketPermissions := v))
      else Err(InvalidSocketPermissions)
  {
  }

  /** The branches of the keys that take one of a few spellings, on the value alone. */
  lemma ChoiceValues(l: Layout, o: Options, v: string)
    ensures ApplyOption(l, o, DomainKey, v) ==
      if v == "AF_UNIX" || v == "AF_LOCAL" then Ok(o.(domain := Unix))
      else if v == "AF_INET" then Ok(o.(domain := Inet))
      else Err(InvalidDomain)
    ensures ApplyOption(l, o, ProtocolKey, v) ==
      if v == "SOCK_STREAM" then Ok(o.(protocol := Stream)) else Err(InvalidProtocol)
  {
  }

  /** The branches of the keys read with `strtol` and converted to `int`, on the value alone. */
  lemma NumberValues(l: Layout, o: Options, v: string)
    ensures ApplyOption(l, o, Port, v) ==
      if 1 < ToInt(StrToL(v)) < 65635 then Ok(o.(port := ToInt(StrToL(v)) % 65536)) else Err(InvalidPort)
    ensures ApplyOption(l, o, MaxConnections, v) ==
      if ToInt(StrToL(v)) > 0 then Ok(o.(maxConnections := ToInt(StrToL(v)) % 256)) else Err(InvalidMaxConnections)
  {
  }

  /**
   `mq_name` is refused only when the value neither starts with `/` nor fits the array;
   an accepted value is stored cut to at most capacity - 1 characters.
   */
  lemma MqNameRule(l: Layout, o: Options, v: string)
    ensures var r := ApplyToken(l, o, Token(MqName, v));
      && (r.Err? <==> (|v| == 0 || v[0] != '/') && |v| >= l.mqName)
      && (r.Err? ==> r.error == InvalidMqName)
      && (r.Ok? ==> r.options == o.(mqName := v[..if |v| < l.mqName then |v| else l.mqName - 1]))
  {
    SplitAtFirstSeparator(l, o, MqName, v);
    MqNameValue(l, o, v);
  }

  /**
   A `/`-prefixed queue name longer than the array is accepted (the guard joins its two
   conditions with `&&`) and silently truncated.
   */
  lemma MqNameLongSlashTruncated(l: Layout, o: Options, v: string)
    requires |v| >= l.mqName && |v| > 0 && v[0] == '/'
    ensures ApplyToken(l, o, Token(MqName, v)) == Ok(o.(mqName := v[..l.mqName - 1]))
  {
    MqNameRule(l, o, v);
  }

  /** `socket_path` is accepted exactly when it fits its array, and is then stored unchanged. */
  lemma SocketPathRule(l: Layout, o: Options, v: string)
    ensures var r := ApplyToken(l, o, Token(SocketPath, v));
      && (r.Ok? <==> |v| < l.socketPath)
      && (r.Ok? ==> r.options == o.(socketPath := v))
      && (r.Err? ==> r.error == InvalidSocketPath)
  {
    SplitAtFirstSeparator(l, o, SocketPath, v);
    SocketPathValue(l, o, v);
  }

  /** `log_file` is accepted exactly when it fits its array, and is then stored unchanged. */
  lemma LogFileRule(l: Layout, o: Options, v: string)
    ensures var r := ApplyToken(l, o, Token(LogFile, v));
      && (r.Ok? <==> |v| < l.logFile)
      && (r.Ok? ==> r.options == o.(logFile := v))
      && (r.Err? ==> r.error == InvalidLogFile)
  {
    SplitAtFirstSeparator(l, o, LogFile, v);
    LogFileValue(l, o, v);
  }

  /** `authorised_peer_process_name` is accepted exactly when it fits its array, and is then stored unchanged. */
  lemma ProcessNameRule(l: Layout, o: Options, v: string)
    ensures var r := ApplyToken(l, o, Token(PeerProcessName, v));
      && (r.Ok? <==> |v| < l.peerProcessName)
      && (r.Ok? ==> r.options == o.(peerProcessName := v))
      && (r.Err? ==> r.error == InvalidProcessName)
  {
    SplitAtFirstSeparator(l, o, PeerProcessName, v);
    ProcessNameValue(l, o, v);
  }

  /** `authorised_peer_cli_args` is accepted exactly when it fits its array, and is then stored unchanged. */
  lemma CliArgsRule(l: Layout, o: Options, v: string)
    ensures var r := ApplyToken(l, o, Token(PeerCliArgs, v));
      && (r.Ok? <==> |v| < l.peerCliArgs)
      && (r.Ok? ==> r.options == o.(peerCliArgs := v))
      && (r.Err? ==> r.error == InvalidCliArgs)
  {
    SplitAtFirstSeparator(l, o, PeerCliArgs, v);
    CliArgsValue(l, o, v);
  }

  /**
   The username is checked against the literal bound 31, not against its array, and is
   stored cut to the array's capacity - 1.
   */
  lemma UsernameRule(l: Layout, o: Options, v: string)
    ensures var r := ApplyToken(l, o, Token(PeerUsername, v));
      && (r.Ok? <==> |v| < 31)
      && (r.Ok? ==> r.options == o.(peerUsername := v[..if |v| < l.peerUsername then |v| else l.peerUsername - 1]))
      && (r.Err? ==> r.error == InvalidUsername)
  {
    SplitAtFirstSeparator(l, o, PeerUsername, v);
    UsernameValue(l, o, v);
  }

  /** `AF_UNIX` and `AF_LOCAL` select the Unix domain, `AF_INET` the Internet domain; nothing else is accepted. */
  lemma DomainRule(l: Layout, o: Options, v: string)
    ensures var r := ApplyToken(l, o, Token(DomainKey, v));
      && (r.Ok? <==> v == "AF_UNIX" || v == "AF_LOCAL" || v == "AF_INET")
      && (r.Ok? ==> r.options == o.(domain := if v == "AF_INET" then Inet else Unix))
      && (r.Err? ==> r.error == InvalidDomain)
  {
    SplitAtFirstSeparator(l, o, DomainKey, v);
    ChoiceValues(l, o, v);
  }

  /** Only `SOCK_STREAM` is an accepted protocol. */
  lemma ProtocolRule(l: Layout, o: Options, v: string)
    ensures var r := ApplyToken(l, o, Token(ProtocolKey, v));
      && (r.Ok? <==> v == "SOCK_STREAM")
      && (r.Ok? ==> r.options == o.(protocol := Stream))
      && (r.Err? ==> r.error == InvalidProtocol)
  {
    SplitAtFirstSeparator(l, o, ProtocolKey, v);
    ChoiceValues(l, o, v);
  }

  /**
   The port is the `strtol` value of the text converted to `int`; it is accepted iff that
   value p satisfies 1 < p < 65635, and is stored as a `uint16_t`.
   */
  lemma PortRule(l: Layout, o: Options, v: string)
    ensures var r := ApplyToken(l, o, Token(Port, v));
      && (r.Ok? <==> 1 < ToInt(StrToL(v)) < 65635)
      && (r.Ok? ==> r.options == o.(port := ToInt(StrToL(v)) % 65536))
      && (r.Err? ==> r.error == InvalidPort)
  {
    SplitAtFirstSeparator(l, o, Port, v);
    NumberValues(l, o, v);
  }

  /** Reduction modulo m of a value below 2m subtracts m at most once. */
  lemma WrapOnce(p: int, m: int)
    requires 0 <= p < 2 * m
    ensures p % m == if p < m then p else p - m
  {
    if p < m {
      assert p == 0 * m + p;
    } else {
      assert p == 1 * m + (p - m);
    }
  }

  /**
   A port whose value p passes the range check is stored exactly when p <= 65535; from
   65536 to 65634 it wraps to p - 65536.
   */
  lemma PortStored(l: Layout, o: Options, v: string, p: int)
    requires ToInt(StrToL(v)) == p
    ensures var r := ApplyToken(l, o, Token(Port, v));
      && (r.Ok? <==> 1 < p < 65635)
      && (1 < p < 65536 ==> r == Ok(o.(port := p)))
      && (65536 <= p < 65635 ==> r == Ok(o.(port := p - 65536)))
      && (r.Err? ==> r == Err(InvalidPort))
  {
    PortRule(l, o, v);
    if 1 < p < 65635 {
      WrapOnce(p, 65536);
    }
  }

  /**
   For a port written in decimal as n within the range of `int`: `port=65536` is accepted
   and stores 0.
   */
  lemma PortDecimal(l: Layout, o: Options, n: nat)
    requires n < IntMin + IntRange
    ensures var r := ApplyToken(l, o, Token(Port, Decimal(n)));
      && (r.Ok? <==> 1 < n < 65635)
      && (1 < n < 65536 ==> r == Ok(o.(port := n)))
      && (65536 <= n < 65635 ==> r == Ok(o.(port := n - 65536)))
  {
    StrToLDecimal(n);
    ToIntFits(n);
    PortStored(l, o, Decimal(n), n);
  }

  /**
   The range check runs after the conversion to `int`, so adding 2^32 to a port passes it
   unnoticed: `port=4294967376` is accepted as port 80.
   */
  lemma PortWrapsThroughInt(l: Layout, o: Options, n: nat)
    requires 1 < n < 65635
    ensures ApplyToken(l, o, Token(Port, Decimal(n + IntRange))) == ApplyToken(l, o, Token(Port, Decimal(n)))
    ensures ApplyToken(l, o, Token(Port, Decimal(n + IntRange))).Ok?
  {
    StrToLDecimal(n);
    StrToLDecimal(n + IntRange);
    ToIntPeriodic(n);
    ToIntFits(n);
    PortStored(l, o, Decimal(n), n);
    PortStored(l, o, Decimal(n + IntRange), n);
  }

  /**
   The conversion to `int` also wraps negative values: `port=-4294967216` is accepted as
   port 80, exactly like `port=80`.
   */
  lemma PortNegativeWrapsThroughInt(l: Layout, o: Options, n: nat)
    requires 1 < n < 65635
    ensures ApplyToken(l, o, Token(Port, "-" + Decimal(IntRange - n))) == ApplyToken(l, o, Token(Port, Decimal(n)))
    ensures ApplyToken(l, o, Token(Port, "-" + Decimal(IntRange - n))).Ok?
  {
    var m: nat := IntRange - n;
    StrToLReadsNumber("", "-", m, "");
    assert "" + "-" + Decimal(m) + "" == "-" + Decimal(m);
    ToIntPeriodic(n - IntRange);
    ToIntFits(n);
    StrToLDecimal(n);
    PortStored(l, o, "-" + Decimal(m), n);
    PortStored(l, o, Decimal(n), n);
  }

  /**
   The port text may carry leading white space, a sign and trailing non-digits: with a
   `+` or no sign it means the same as the bare number, with a `-` it is refused.
   */
  lemma PortSyntax(l: Layout, o: Options, ws: string, sign: string, n: nat, rest: string)
    requires forall i :: 0 <= i < |ws| ==> IsSpace(ws[i])
    requires sign == "" || sign == "+" || sign == "-"
    requires |rest| == 0 || !IsDigit(rest[0])
    requires n < IntMin + IntRange
    ensures var r := ApplyToken(l, o, Token(Port, ws + sign + Decimal(n) + rest));
      && (sign == "-" ==> r == Err(InvalidPort))
      && (sign != "-" ==> r == ApplyToken(l, o, Token(Port, Decimal(n))))
  {
    StrToLReadsNumber(ws, sign, n, rest);
    StrToLDecimal(n);
    ToIntFits(n);
    ToIntFits(-(n as int));
    var v := ws + sign + Decimal(n) + rest;
    if sign == "-" {
      PortStored(l, o, v, -(n as int));
    } else {
      PortStored(l, o, v, n);
      PortStored(l, o, Decimal(n), n);
    }
  }

  /** `max_connections` is accepted iff its `strtol` value, converted to `int`, is positive; it is stored truncated to 8 bits. */
  lemma MaxConnectionsRule(l: Layout, o: Options, v: string)
    ensures var r := ApplyToken(l, o, Token(MaxConnections, v));
      && (r.Ok? <==> ToInt(StrToL(v)) > 0)
      && (r.Ok? ==> r.options == o.(maxConnections := ToInt(StrToL(v)) % 256))
      && (r.Err? ==> r.error == InvalidMaxConnections)
  {
    SplitAtFirstSeparator(l, o, MaxConnections, v);
    NumberValues(l, o, v);
  }

  /**
   Every positive multiple of 256 within the range of `int` is accepted and stores zero
   connection slots, a slot count the dispatch loop cannot take modulo.
   */
  lemma MaxConnectionsTruncatesToZero(l: Layout, o: Options, n: nat)
    requires 0 < n < IntMin + IntRange && n % 256 == 0
    ensures ApplyToken(l, o, Token(MaxConnections, Decimal(n))) == Ok(o.(maxConnections := 0))
  {
    MaxConnectionsRule(l, o, Decimal(n));
    StrToLDecimal(n);
    ToIntFits(n);
  }

  /**
   `socket_permissions` is accepted iff it has exactly capacity - 1 characters, all
   decimal digits (so `8` and `9` pass although the mode is octal), and is stored unchanged.
   */
  lemma SocketPermissionsRule(l: Layout, o: Options, v: string)
    ensures var r := ApplyToken(l, o, Token(SocketPermissions, v));
      && (r.Ok? <==> |v| == l.socketPermissions - 1 && AllDigits(v))
      && (r.Ok? ==> r.options == o.(socketPermissions := v))
      && (r.Err? ==> r.error == InvalidSocketPermissions)
  {
    SplitAtFirstSeparator(l, o, SocketPermissions, v);
    SocketPermissionsValue(l, o, v);
  }

  /** The `PeerUid` branch on its value: a digit string's value, saturated at `LONG_MAX`, is stored modulo 2^32; anything else is refused. */
  lemma PeerUidValue(l: Layout, o: Options, v: string)
    ensures ApplyOption(l, o, PeerUid, v) ==
      if AllDigits(v) then Ok(o.(peerUid := Saturate(DecimalValue(v)) % U32)) else Err(InvalidUid)
  {
    if AllDigits(v) {
      StrToLAllDigits(v);
    }
  }

  /**
   `authorised_peer_uid` is accepted iff every character is a digit (the empty string included), and is
   stored as the `unsigned int` conversion of its `strtol` value, in its own field only.
   */
  lemma PeerUidRule(l: Layout, o: Options, v: string)
    ensures var r := ApplyToken(l, o, Token(PeerUid, v));
      && (r.Ok? <==> AllDigits(v))
      && (r.Ok? ==> r.options == o.(peerUid := Saturate(DecimalValue(v)) % U32))
      && (r.Err? ==> r.error == InvalidUid)
  {
    SplitAtFirstSeparator(l, o, PeerUid, v);
    PeerUidValue(l, o, v);
  }

  /** The `PeerGid` branch on its value: a digit string's value, saturated at `LONG_MAX`, is stored modulo 2^32; anything else is refused. */
  lemma PeerGidValue(l: Layout, o: Options, v: string)
    ensures ApplyOption(l, o, PeerGid, v) ==
      if AllDigits(v) then Ok(o.(peerGid := Saturate(DecimalValue(v)) % U32)) else Err(InvalidGid)
  {
    if AllDigits(v) {
      StrToLAllDigits(v);
    }
  }

  /**
   `authorised_peer_gid` is accepted iff every character is a digit (the empty string included), and is
   stored as the `unsigned int` conversion of its `strtol` value, in its own field only.
   */
  lemma PeerGidRule(l: Layout, o: Options, v: string)
    ensures var r := ApplyToken(l, o, Token(PeerGid, v));
      && (r.Ok? <==> AllDigits(v))
      && (r.Ok? ==> r.options == o.(peerGid := Saturate(DecimalValue(v)) % U32))
      && (r.Err? ==> r.error == InvalidGid)
  {
    SplitAtFirstSeparator(l, o, PeerGid, v);
    PeerGidValue(l, o, v);
  }

  /** The `PeerPid` branch on its value: a digit string's value, saturated at `LONG_MAX`, is stored modulo 2^32; anything else is refused. */
  lemma PeerPidValue(l: Layout, o: Options, v: string)
    ensures ApplyOption(l, o, PeerPid, v) ==
      if AllDigits(v) then Ok(o.(peerPid := Saturate(DecimalValue(v)) % U32)) else Err(InvalidPid)
  {
    if AllDigits(v) {
      StrToLAllDigits(v);
    }
  }

  /**
   `authorised_peer_pid` is accepted iff every character is a digit (the empty string included), and is
   stored as the `unsigned int` conversion of its `strtol` value, in its own field only.
   */
  lemma PeerPidRule(l: Layout, o: Options, v: string)
    ensures var r := ApplyToken(l, o, Token(PeerPid, v));
      && (r.Ok? <==> AllDigits(v))
      && (r.Ok? ==> r.options == o.(peerPid := Saturate(DecimalValue(v)) % U32))
      && (r.Err? ==> r.error == InvalidPid)
  {
    SplitAtFirstSeparator(l, o, PeerPid, v);
    PeerPidValue(l, o, v);
  }

  /**
   A digit string too large for a `long` saturates in `strtol`, and `LONG_MAX` converted
   to `unsigned int` is 2^32 - 1: such a uid is accepted as 4294967295.
   */
  lemma PeerUidSaturates(l: Layout, o: Options, v: string)
    requires AllDigits(v) && DecimalValue(v) > LongMax
    ensures ApplyToken(l, o, Token(PeerUid, v)) == Ok(o.(peerUid := U32 - 1))
  {
    PeerUidRule(l, o, v);
    LongMaxAsUnsigned();
  }

  /** An empty identifier passes the digit check and stores 0, for each of uid, gid and pid. */
  lemma EmptyPeerIdIsZero(l: Layout, o: Options, v: string)
    requires v == ""
    ensures ApplyToken(l, o, Token(PeerUid, v)) == Ok(o.(peerUid := 0))
    ensures ApplyToken(l, o, Token(PeerGid, v)) == Ok(o.(peerGid := 0))
    ensures ApplyToken(l, o, Token(PeerPid, v)) == Ok(o.(peerPid := 0))
  {
    assert AllDigits(v) && DecimalValue(v) == 0;
    assert Saturate(DecimalValue(v)) % U32 == 0;
    PeerUidRule(l, o, v);
    PeerGidRule(l, o, v);
    PeerPidRule(l, o, v);
  }

  /** Folding over a concatenation folds the first part, then the second only if the first was accepted. */
  lemma {:induction false} FoldAppend(step: (Options, string) -> Applied, o: Options, a: seq<string>, b: seq<string>)
    ensures Fold(step, o, a + b) ==
      if Fold(step, o, a).ok then Fold(step, Fold(step, o, a).options, b) else Fold(step, o, a)
    decreases |a|
  {
    if |a| == 0 {
      assert a + b == b;
    } else {
      assert (a + b)[0] == a[0];
      assert (a + b)[1..] == a[1..] + b;
      var r := step(o, a[0]);
      if r.Ok? {
        FoldAppend(step, r.options, a[1..], b);
      }
    }
  }

  /** The position of the first refused token of a failed fold. */
  lemma {:induction false} FoldFirstInvalid(step: (Options, string) -> Applied, o: Options, tokens: seq<string>)
    returns (k: nat)
    requires !Fold(step, o, tokens).ok
    ensures k < |tokens|
    ensures Fold(step, o, tokens[..k]).ok
    ensures step(Fold(step, o, tokens[..k]).options, tokens[k]).Err?
    decreases |tokens|
  {
    var r := step(o, tokens[0]);
    if r.Err? {
      k := 0;
      assert tokens[..0] == [];
    } else {
      var j := FoldFirstInvalid(step, r.options, tokens[1..]);
      k := j + 1;
      assert tokens[..k][0] == tokens[0];
      assert tokens[..k][1..] == tokens[1..][..j];
      assert tokens[k] == tokens[1..][j];
    }
  }

  /** A refused token ends the fold with failure and the record built before it. */
  lemma FoldStopsAtInvalid(step: (Options, string) -> Applied, o: Options, done: seq<string>, bad: string, rest: seq<string>)
    requires Fold(step, o, done).ok
    requires step(Fold(step, o, done).options, bad).Err?
    ensures Fold(step, o, done + [bad] + rest) == Parsed(false, Fold(step, o, done).options)
  {
    FoldAppend(step, o, done, [bad] + rest);
    assert done + [bad] + rest == done + ([bad] + rest);
    assert ([bad] + rest)[0] == bad;
  }

  /** A failed fold has a first refused token and leaves exactly the record built before it. */
  lemma FoldFailure(step: (Options, string) -> Applied, o: Options, tokens: seq<string>)
    returns (k: nat)
    requires !Fold(step, o, tokens).ok
    ensures k < |tokens|
    ensures Fold(step, o, tokens[..k]).ok
    ensures step(Fold(step, o, tokens[..k]).options, tokens[k]).Err?
    ensures Fold(step, o, tokens).options == Fold(step, o, tokens[..k]).options
  {
    k := FoldFirstInvalid(step, o, tokens);
    assert tokens == tokens[..k] + [tokens[k]] + tokens[k + 1..];
    FoldStopsAtInvalid(step, o, tokens[..k], tokens[k], tokens[k + 1..]);
  }

  /** Parsing a concatenation parses the first part, then the second only if the first was accepted. */
  lemma ParseAppend(l: Layout, o: Options, a: seq<string>, b: seq<string>)
    ensures Parse(l, o, a + b) ==
      if Parse(l, o, a).ok then Parse(l, Parse(l, o, a).options, b) else Parse(l, o, a)
  {
    FoldAppend(Validator(l), o, a, b);
  }

  /**
   Once the tokens `done` have been applied, a refused token stops parsing with failure:
   the fields `done` set keep their new values, nothing after is read, and the field the
   refused token names is left as it was.
   */
  lemma StopsAtFirstInvalid(l: Layout, o: Options, done: seq<string>, bad: string, rest: seq<string>)
    requires Parse(l, o, done).ok
    requires ApplyToken(l, Parse(l, o, done).options, bad).Err?
    ensures Parse(l, o, done + [bad] + rest) == Parsed(false, Parse(l, o, done).options)
  {
    assert Validator(l)(Parse(l, o, done).options, bad).Err?;
    FoldStopsAtInvalid(Validator(l), o, done, bad, rest);
  }

  /** A failed parse has a first refused token, and leaves exactly the record built before it. */
  lemma FailureHasFirstInvalid(l: Layout, o: Options, tokens: seq<string>)
    returns (k: nat)
    requires !Parse(l, o, tokens).ok
    ensures k < |tokens|
    ensures Parse(l, o, tokens[..k]).ok
    ensures ApplyToken(l, Parse(l, o, tokens[..k]).options, tokens[k]).Err?
    ensures Parse(l, o, tokens).options == Parse(l, o, tokens[..k]).options
  {
    k := FoldFailure(Validator(l), o, tokens);
    assert Validator(l)(Parse(l, o, tokens[..k]).options, tokens[k]) == ApplyToken(l, Parse(l, o, tokens[..k]).options, tokens[k]);
  }
}
