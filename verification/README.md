# secure_socket: option validation and the connection dispatch loop, in Dafny

This project models two sequential pieces of the `secure_socket` daemon and proves
properties about them.

- **The option record and its command-line validator** (`src/context.c`).
  - `initialise_options` fills an immutable `Options` record from the compiled-in defaults.
  - `parse_options` folds over the `key=value` tokens of `argv`. It stops at the first
    refused token and keeps whatever the earlier tokens stored.
  - Every recognised key has its own acceptance rule and its own stored value. A token
    without `=` is refused, and so is a key outside the `strcmp` chain.
  - The C library pieces the parser leans on are modelled on strings of bytes, one `char` per byte:
    - `strchr`;
    - `isdigit` and `isspace`;
    - `strtol` in base 10, with white space, sign and saturation;
    - the `(int)`, `(uint16_t)`, `(uint8_t)` and `(unsigned int)` conversions;
    - the `memset` + `strncpy` store into a fixed-capacity array.
- **The dispatch loop of `threaded_server`** (`src/threaded_server.c`), together with
  `make_thread_context` and `free_thread_context` (`src/context.c`).
  - Accepting a connection and creating its worker thread are abstracted into one input
    per iteration, an `Outcome`. The possible outcomes are `Denied`, `SpawnFailed(socket)`
    and `Spawned(socket)`.
  - The loop is a deterministic step function. Its state is:
    - the `unsigned int` counter `count`, which wraps modulo 2^32;
    - the error budget, which starts at 50;
    - the slot array `client_ctx`;
    - the sequence of sockets handed to `ipc_socket_free`.
  - `Run` drives the step function over a finite outcome sequence.
  - `ThreadedServerLoop` is the same loop written as a `while` statement. It is proved
    equal to `Run`.

Files:

| file | contents |
|---|---|
| `maybe.dfy` | `Option`, standing for a pointer that may be NULL |
| `c_strings.dfy` | models of `strchr`, `isdigit`, `isspace`, `strtol`, `(int)`, and the bounded copy |
| `options.dfy` | the option record, `initialise_options`, one token's validation, the fold, and `parse_options` |
| `option_rules.dfy` | the per-key rules, the error cases, stop-at-first-error, and preservation of the record's invariant |
| `contexts.dfy` | thread contexts: `make_thread_context` and `free_thread_context` |
| `threaded_server.dfy` | the loop state, one iteration, a run over outcomes, and the imperative loop |
| `loop_properties.dfy` | what each kind of iteration does, the accounting over a run, termination, the round-robin offsets, and a worked example |

Where the code and its surrounding documentation disagree, the model follows the code:

- **Failed thread creation does not revert `count`.** Only a denial does (lines 190-196
  against 202-207 of `src/threaded_server.c`). So a failed spawn moves on to the next
  slot; it does not retry the same one.
- **The error budget is 50.** The doc comment above `threaded_server` speaks of 10 errors,
  but the code sets 50 (`src/threaded_server.c:168`).

## Model

| member | source | states |
|---|---|---|
| CStrings.IndexOf | src/context.c:105 | `strchr(p, '=')` finds the first `=`: none exists exactly when it returns nothing, and otherwise every earlier character differs from `=` |
| CStrings.StoreBounded | src/context.c:119-120 | clearing the array and copying at most capacity - 1 characters keeps a prefix of the value: the whole value when it fits, capacity - 1 characters otherwise |
| CStrings.StrToL | src/context.c:177 | `strtol` always returns a value within the range of a 64-bit `long` |
| CStrings.LeadingSpaces | src/context.c:177 | the white space `strtol` skips is the longest prefix of `isspace` characters |
| CStrings.LeadingDigits | src/context.c:177 | the digits `strtol` reads are the longest prefix of `isdigit` characters |
| CStrings.StrToLReadsDigits | src/context.c:177 | `strtol` skips leading white space, reads one optional sign, stops at the first non-digit, and returns the value of the digit run (leading zeros included); a magnitude beyond `LONG_MAX` gives `LONG_MAX`, and after `-` one beyond `LONG_MAX + 1` gives `LONG_MIN` |
| CStrings.StrToLReadsNumber | src/context.c:177 | for a magnitude up to `LONG_MAX` written without leading zeros, `strtol` returns the number itself, negated after `-`, whatever white space precedes it and whatever non-digit follows it |
| CStrings.StrToLAllDigits | src/context.c:243 | on a string of digits only, `strtol` returns its decimal value saturated at `LONG_MAX` (0 for the empty string) |
| CStrings.DecimalRoundTrip | src/context.c:243 | reading back the decimal rendering of a number gives the number |
| CStrings.ToInt | src/context.c:177 | the `(int)` conversion lands in [INT_MIN, INT_MAX] and differs from its argument by a multiple of 2^32 |
| CStrings.ToIntFits | src/context.c:188 | a value that fits an `int` is unchanged by the `(int)` conversion |
| CStrings.ToIntPeriodic | src/context.c:177 | the `(int)` conversion gives the same result for x and x + 2^32 |
| CStrings.LongMaxAsUnsigned | src/context.c:243 | `LONG_MAX` converted to `unsigned int` is 2^32 - 1 |
| Options.InitialiseOptions | src/context.c:51-85 | the defaults satisfy the record's invariant (every string leaves room for its NUL, every integer fits its C type); strings are copied unchanged when they fit, and otherwise cut to exactly capacity − 1 characters; uid takes the pid default, gid the uid default and pid the gid default; process name and CLI arguments are empty |
| Options.ParseOptions | src/context.c:95-316 | with no argument after the program name, parsing succeeds and changes nothing; otherwise the loop from index 1 returns the verdict and record of the fold over `argv[1..]` |
| Options.LookupKey | src/context.c:111-306 | a key the `strcmp` chain finds is spelled exactly as the text before `=` |
| Options.ApplyOption | src/context.c:111-306 | a refused value reports its key's own error; an accepted value changes only the field of its key |
| Options.ApplyOptionKeepsFits | src/context.c:111-306 | every accepted key stores a value that keeps the record's invariant (strings fit their arrays, integers fit their C types) |
| Options.ApplyToken | src/context.c:103-111 | every accepted token keeps the record's invariant |
| Options.FoldKeepsFits | src/context.c:103-311 | the loop keeps the record's invariant over any number of tokens, whether it ends accepted or refused |
| Options.Parse | src/context.c:103-313 | whatever the verdict, the record `parse_options` leaves satisfies the invariant when the one it started from did |
| OptionRules.FoldAppend | src/context.c:103-311 | the loop over a concatenation runs over the first part, then over the second from the resulting record only if the first was accepted |
| OptionRules.FoldStopsAtInvalid | src/context.c:103-311 | the loop stops at a refused token with the record built before it, reading nothing after it |
| OptionRules.FoldFailure | src/context.c:103-311 | a refused run of the loop has a first refused token, accepts every token before it, and returns the record built before it |
| OptionRules.LookupKeyName | src/context.c:111-306 | the `strcmp` chain maps each recognised key's spelling to that key |
| OptionRules.UnrecognisedKeyNotFound | src/context.c:308-310 | a name that is not one of the fourteen spellings falls through the chain |
| OptionRules.SplitAtFirstSeparator | src/context.c:105-111 | a token `key=value` with a recognised key is split after the key, so exactly `value` is validated for that key, even when `value` contains `=` |
| OptionRules.NoSeparatorRejected | src/context.c:105-107 | a token without `=` is refused with the separator error, and parsing returns false leaving the record as it was |
| OptionRules.UnknownKeyRejected | src/context.c:308-310 | a token whose key is not recognised is refused whatever its value, and parsing returns false leaving the record as it was |
| OptionRules.MqNameRule | src/context.c:111-122 | `mq_name` is refused iff the value does not start with `/` and does not fit the array; an accepted value is stored cut to at most capacity - 1 characters |
| OptionRules.MqNameLongSlashTruncated | src/context.c:113-120 | a `/`-prefixed name longer than the array is accepted and silently truncated |
| OptionRules.SocketPathRule | src/context.c:124-136 | `socket_path` is accepted iff it fits its array, and is then stored unchanged in its field only |
| OptionRules.LogFileRule | src/context.c:138-150 | `log_file` is accepted iff it fits its array, and is then stored unchanged in its field only |
| OptionRules.DomainRule | src/context.c:152-164 | `domain` is accepted iff it is `AF_UNIX`, `AF_LOCAL` or `AF_INET`; the first two select the Unix domain and the last the Internet domain |
| OptionRules.ProtocolRule | src/context.c:166-174 | `protocol` is accepted iff it is `SOCK_STREAM` |
| OptionRules.PortRule | src/context.c:176-185 | `port` is accepted iff its `strtol` value converted to `int`, p, satisfies 1 < p < 65635; it is then stored as p mod 65536 |
| OptionRules.PortStored | src/context.c:178-179 | a port value p that passes the check is stored exactly when p <= 65535, and as p - 65536 for 65536 to 65634 |
| OptionRules.PortDecimal | src/context.c:176-185 | a decimal port n within the range of `int` is accepted iff 1 < n < 65635; `port=65536` stores 0 |
| OptionRules.PortWrapsThroughInt | src/context.c:177-178 | because the range check follows the conversion to `int`, n + 2^32 is accepted and stored exactly like n (`port=4294967376` is port 80) |
| OptionRules.PortSyntax | src/context.c:177-178 | for a number n within the range of `int`, a port written with leading white space, `+` or trailing non-digits means the same as the bare number, and one written as `-n` is refused |
| OptionRules.PortNegativeWrapsThroughInt | src/context.c:177-178 | a negative port beyond the range of `int` can wrap into range: `-(2^32 - n)` is accepted and stored exactly like n (`port=-4294967216` is port 80) |
| OptionRules.MaxConnectionsRule | src/context.c:187-196 | `max_connections` is accepted iff its `strtol` value converted to `int` is positive, and is stored truncated to 8 bits |
| OptionRules.MaxConnectionsTruncatesToZero | src/context.c:188-190 | every positive multiple of 256 within the range of `int` is accepted and stores 0 |
| OptionRules.SocketPermissionsRule | src/context.c:199-220 | `socket_permissions` is accepted iff it has exactly capacity - 1 characters, all decimal digits (so `8` and `9` pass), and is then stored unchanged |
| OptionRules.UsernameRule | src/context.c:223-232 | the username is accepted iff it is shorter than 31 characters, whatever the array's capacity, and is stored cut to capacity - 1 characters |
| OptionRules.PeerUidRule | src/context.c:234-250 | the uid is accepted iff every character is a digit (the empty string too); its value, saturated at `LONG_MAX`, is stored modulo 2^32 in the uid field only |
| OptionRules.PeerGidRule | src/context.c:252-267 | the gid is accepted iff every character is a digit (the empty string too); its value, saturated at `LONG_MAX`, is stored modulo 2^32 in the gid field only |
| OptionRules.PeerPidRule | src/context.c:269-284 | the pid is accepted iff every character is a digit (the empty string too); its value, saturated at `LONG_MAX`, is stored modulo 2^32 in the pid field only |
| OptionRules.PeerUidSaturates | src/context.c:242-243 | a digit string beyond `LONG_MAX` is accepted as uid 4294967295 |
| OptionRules.EmptyPeerIdIsZero | src/context.c:234-284 | an empty uid, gid or pid passes the digit check and stores 0 |
| OptionRules.ProcessNameRule | src/context.c:286-295 | the process name is accepted iff it fits its array, and is then stored unchanged |
| OptionRules.CliArgsRule | src/context.c:297-306 | the CLI arguments are accepted iff they fit their array, and are then stored unchanged |
| OptionRules.ParseAppend | src/context.c:103-311 | parsing a concatenation parses the first part, then the second part from the resulting record only if the first was accepted |
| OptionRules.StopsAtFirstInvalid | src/context.c:103-311 | a refused token after accepted tokens makes parsing return false with the record those tokens built: earlier fields are not rolled back, later tokens are not read, and the refused field is unchanged |
| OptionRules.FailureHasFirstInvalid | src/context.c:103-311 | a failed parse has a first refused token, every token before it is accepted, and the record left is the one built before it |
| Contexts.MakeThreadContext | src/context.c:28-45 | a new context holds the given socket (possibly NULL) and the server's log, and freeing it again releases exactly that socket, or nothing when it was made with NULL |
| Contexts.FreeThreadContext | src/context.c:389-395 | freeing a context releases a socket iff the context holds one, and then exactly that socket |
| ThreadedServer.Start | src/threaded_server.c:167-170 | the loop starts with `count` 0, a budget of 50, no socket released and every slot unset |
| ThreadedServer.Increment | src/threaded_server.c:184 | `count++` on an `unsigned int` adds one, wrapping from 2^32 - 1 to 0 |
| ThreadedServer.Decrement | src/threaded_server.c:193 | `count--` undoes `count++`, also across the wrap |
| ThreadedServer.Offset | src/threaded_server.c:184 | with `nb_cnx > 0`, every offset lies in [0, nb_cnx) |
| ThreadedServer.Step | src/threaded_server.c:182-208 | every iteration keeps the counter within `unsigned int` and the slot array at `nb_cnx` entries, so the next offset is again a valid slot |
| ThreadedServer.Run | src/threaded_server.c:180-210 | every offset a run uses is a valid slot; the budget never grows; a run ends with the budget exhausted or every outcome consumed |
| ThreadedServer.Iteration | src/threaded_server.c:182-208 | the loop body, written as statements over the loop's variables, computes the step function |
| ThreadedServer.ThreadedServerLoop | src/threaded_server.c:180-210 | the `while (nb_authorised_errors)` loop produces exactly the trace of `Run` from the initial state |
| LoopProperties.DecrementAfterIncrement | src/threaded_server.c:184-193 | `count++` followed by `count--` restores the counter |
| LoopProperties.OffsetAdvances | src/threaded_server.c:184 | without a wrap of `count`, the next offset is the following slot, cyclically |
| LoopProperties.DeniedRetriesSameSlot | src/threaded_server.c:190-196 | a denial restores `count`, so the same offset is used again; it costs exactly one unit of budget, frees the fresh context without releasing a socket, and touches no other slot |
| LoopProperties.SpawnFailedAdvances | src/threaded_server.c:199-207 | a failed spawn costs one unit of budget, keeps the increment so the next offset advances, frees the context together with its new socket, and touches no other slot |
| LoopProperties.SpawnedFillsSlot | src/threaded_server.c:184-199 | a successful spawn keeps the budget, advances `count`, leaves a context holding the socket and the server's log at the offset, and touches no other slot |
| LoopProperties.StepAccounting | src/threaded_server.c:180-210 | one iteration lowers the budget by one exactly on a failure, adds one to `count` unless it was a denial, and releases the socket exactly of a failed spawn |
| LoopProperties.RunBudget | src/threaded_server.c:180-207 | over a run, the budget drops by exactly the number of denials and failed spawns consumed; successes never restore it |
| LoopProperties.RunCount | src/threaded_server.c:184-193 | over a run, `count` grows by the number of non-denied outcomes consumed, modulo 2^32 |
| LoopProperties.RunReleased | src/threaded_server.c:190-207 | the sockets released over a run are exactly those of the failed spawns consumed, in order |
| LoopProperties.LastConsumedIsFailure | src/threaded_server.c:180-207 | when a run exhausts the budget, the last outcome it consumed was a failure |
| LoopProperties.StopsAtExhaustingFailure | src/threaded_server.c:180-207 | for any starting budget, the loop stops iff the outcomes contain at least that many failures, and then it stops exactly at the failure that exhausts the budget |
| LoopProperties.ExitsAtFiftiethFailure | src/threaded_server.c:168-180 | from the initial state, the loop exits exactly at the 50th cumulative failure, however many successes are interleaved |
| LoopProperties.RunOffsets | src/threaded_server.c:184-193 | iteration i uses offset ((count0 + number of non-denied outcomes before i) mod 2^32) mod nb_cnx |
| LoopProperties.WorkedExample | src/threaded_server.c:184-194 | with three slots and outcomes deny, accept, accept, deny, accept, the offsets are 0, 0, 1, 2, 2; the budget ends at 48; no socket is released; each slot holds one accepted socket |

## Left out

- The `sizeof` capacities of the record's arrays and the defaults from `vars.h`:
  - `context.h` and `vars.h` are not part of this model, so these are parameters.
    `Layout` holds the capacities and `Defaults` holds the defaults.
  - A capacity is required to fit the `uint16_t` or `uint8_t` local it is read into, so
    the narrowing of `sizeof` is not modelled.
- InitialiseOptions requires that the permission and username defaults fit their arrays:
  - `strcpy` of a longer default overflows the array, which is undefined behaviour.
  - The integer defaults are stored with the wrap of their C types.
- `LOG_STDOUT`, `LOG_FILE`, `LOG` and the `log_buffer` messages: logging only. The log
  handle is an opaque number.
- `make_server_context` and `free_server_context`: setup and teardown of the logging
  subsystem through foreign calls.
- MakeThreadContext: the `malloc` failure path that returns NULL is not modelled. Neither
  is the failed `malloc` of `client_ctx`, nor `exit(errno)`.
- `ipc_accept_connection` (accept, bind, peer-credential checks) and `pthread_create`:
  both are socket or thread I/O, and become the `Outcome` input.
- `handle_client` and `read_data_from_source`: they run in the worker threads or read
  files.
- Race with running workers: a worker may still use a slot that the loop reuses. This is
  a concurrency concern outside a sequential model.
- Run: consumes a finite sequence of outcomes and stops when it runs out. The daemon would
  instead block in `accept`.
- After the loop, `pthread_attr_destroy` and `free(client_ctx)` are not modelled.
- Line 205 of `src/threaded_server.c` assigns the result of the `void` function
  `free_thread_context`. The model's own choice for that line: the slot's context is freed
  and the slot is left dangling, and `count` is not reverted. Nothing reads the slot
  before it is next overwritten, so clearing it instead would behave the same.
- ThreadedServer.Offset requires `nb_cnx > 0`, because `count % nb_cnx` is undefined for
  0. The model also keeps `nb_cnx` below 2^32, the range of its `unsigned int`.
- The `(int)` conversion of an out-of-range `long` is implementation-defined in C. ToInt
  models GCC's reduction modulo 2^32. `long` is taken to be 64 bits wide.
- The write of the NUL over `=` in `argv` (`*q++ = '\0'`): the model splits the token
  instead.
- Bytes, not characters: a `char` of an `argv` token stands for one byte, as `strlen`,
  `strncpy` and `isdigit` see it. A value holding non-ASCII text is a string of its
  encoded bytes, so every length check counts bytes, as in C. A NUL cannot occur inside
  an `argv` string, so the model does not exclude it.
