/**
 * The idempotent request protocol (packages/core/src/command-transport-server.ts over
 * packages/core/src/idempotency-registry.ts): what each envelope and drain does to the server, and what
 * holds over any run of them. Times are integer milliseconds.
 */
module Transport {
  import opened Wrappers
  import opened Texts
  import opened Commands
  import opened CanonicalJson
  import CanonicalForm

  datatype ErrorCode =
    | InvalidIdentifier | IdentifierTooLong | InvalidIdentifierFormat | RequestIdInUse | InvalidSentAt
    | InvalidCommand | InvalidCommandType | InvalidCommandPriority | InvalidCommandTimestamp | InvalidCommandStep
    | InvalidCommandPayload | InvalidCommandRequestId | RequestIdMismatch
    | ExecutionFailed(code: Texts.Text)

  datatype Status = Accepted | Rejected | Duplicate

  datatype Response = Response(requestId: Texts.Text, status: Status, serverStep: int, error: Option<ErrorCode>)

  /** A request as received: `None` where a field is missing or of the wrong type. */
  datatype Envelope = Envelope(
    requestId: Option<Texts.Text>, clientId: Option<Texts.Text>, sentAt: Option<real>, command: Option<RawCommand>)

  /** The inner `requestId` may be left out, given, or given as something that is no string. */
  datatype InnerId = Omitted | NotText | Given(id: Texts.Text)

  datatype RawCommand = RawCommand(
    ctype: Option<Texts.Text>, priority: Option<int>, timestamp: Option<real>, step: Option<int>, payload: Payload,
    requestId: InnerId)

  datatype Outcome = Outcome(requestId: Option<Texts.Text>, serverStep: int, failure: Option<Texts.Text>)

  /** The TTL, the longest identifier, and how a client and a request id make a key. */
  datatype Config = Config(ttlMs: nat, maxLength: nat, keyOf: (Texts.Text, Texts.Text) -> Texts.Text)

  const DEFAULT_TTL_MS: nat := 300000
  const DEFAULT_MAX_LENGTH: nat := 128

  /** Missing, non-finite and non-positive settings take the default; others are rounded down. */
  function Setting(value: Option<real>, default_: nat): (r: nat)
    ensures value.Some? && value.value >= 1.0 ==> r as real <= value.value < r as real + 1.0 && r >= 1
  {
    if value.None? || value.value <= 0.0 then default_ else value.value.Floor
  }

  datatype Kept = Kept(response: Response, expiresAt: int)

  datatype Pending = Pending(key: Texts.Text, expiresAt: int)

  /** A response stored under a key, and a command handed to the queue for a key. */
  datatype Recording = Recording(key: Texts.Text, response: Response)

  datatype Submission = Submission(clientId: Texts.Text, requestId: Texts.Text, at: int, command: Command)

  /** The server's two maps, with everything recorded and submitted so far. */
  datatype State = State(
    registry: map<Texts.Text, Kept>, pending: map<Texts.Text, Pending>,
    recorded: seq<Recording>, submitted: seq<Submission>)

  // ----- identifiers and keys

  function TrimLeft(t: Texts.Text): Texts.Text {
    if t != [] && IsWhitespace(t[0]) then TrimLeft(t[1..]) else t
  }

  function TrimRight(t: Texts.Text): Texts.Text {
    if t != [] && IsWhitespace(t[|t| - 1]) then TrimRight(t[..|t| - 1]) else t
  }

  function Trim(t: Texts.Text): Texts.Text {
    TrimRight(TrimLeft(t))
  }

  function NormalizeIdentifier(value: Option<Texts.Text>, maxLength: nat): Result<Texts.Text, ErrorCode> {
    if value.None? || IsBlank(value.value) then Err(InvalidIdentifier)
    else if |Trim(value.value)| > maxLength then Err(IdentifierTooLong)
    else if Trim(value.value) != value.value then Err(InvalidIdentifierFormat)
    else Ok(value.value)
  }

  /** `JSON.stringify([clientId, requestId])`. */
  function RegistryKey(clientId: Texts.Text, requestId: Texts.Text): Texts.Text {
    [0x5B] + (Quoted(clientId) + ([COMMA] + (Quoted(requestId) + [0x5D])))
  }

  /** No two pairs of ids share a key. */
  lemma KeysDiffer(c: Texts.Text, r: Texts.Text, d: Texts.Text, q: Texts.Text)
    ensures RegistryKey(c, r) == RegistryKey(d, q) <==> c == d && r == q
  {
    if RegistryKey(c, r) == RegistryKey(d, q) {
      var x, y := Quoted(r) + [0x5D], Quoted(q) + [0x5D];
      CanonicalForm.Behind(0x5B, Quoted(c) + ([COMMA] + x), 0x5B, Quoted(d) + ([COMMA] + y));
      CanonicalForm.QuotedDiffers(c, d, [COMMA] + x, [COMMA] + y);
      CanonicalForm.Behind(COMMA, x, COMMA, y);
      CanonicalForm.QuotedDiffers(r, q, [0x5D], [0x5D]);
    }
  }

  function KeyPrinter(): (Texts.Text, Texts.Text) -> Texts.Text {
    (clientId: Texts.Text, requestId: Texts.Text) => RegistryKey(clientId, requestId)
  }

  /** Keys tell pairs of ids apart. */
  ghost predicate Keyed(cfg: Config) {
    forall c, r, d, q :: cfg.keyOf(c, r) == cfg.keyOf(d, q) ==> c == d && r == q
  }

  lemma PrintedKeysAreKeyed(cfg: Config)
    requires cfg.keyOf == KeyPrinter()
    ensures Keyed(cfg)
  {
    forall c, r, d, q | cfg.keyOf(c, r) == cfg.keyOf(d, q)
      ensures c == d && r == q
    {
      KeysDiffer(c, r, d, q);
    }
  }

  // ----- responses

  function ServerStep(fallback: Option<int>, next: Option<int>): (r: int)
    ensures r >= 0
  {
    if next.Some? && next.value >= 0 then next.value
    else if fallback.Some? && fallback.value >= 0 then fallback.value
    else 0
  }

  function Reject(requestId: Texts.Text, next: Option<int>, error: ErrorCode): Response {
    Response(requestId, Rejected, ServerStep(None, next), Some(error))
  }

  function ToDuplicate(cached: Response): Response {
    cached.(status := Duplicate)
  }

  /** What is wrong with the body of an envelope whose ids are in order. */
  function Problem(cfg: Config, env: Envelope, requestId: Texts.Text): Option<ErrorCode> {
    if env.sentAt.None? then Some(InvalidSentAt)
    else if env.command.None? then Some(InvalidCommand)
    else
      var c := env.command.value;
      if c.ctype.None? || IsBlank(c.ctype.value) then Some(InvalidCommandType)
      else if c.priority.None? || PriorityOfCode(c.priority.value).None? then Some(InvalidCommandPriority)
      else if c.timestamp.None? then Some(InvalidCommandTimestamp)
      else if c.step.None? || c.step.value < 0 then Some(InvalidCommandStep)
      else if CloneJson(c.payload).None? then Some(InvalidCommandPayload)
      else
        match c.requestId
        case Omitted => None
        case NotText => Some(InvalidCommandRequestId)
        case Given(id) =>
          if NormalizeIdentifier(Some(id), cfg.maxLength).Err? then Some(InvalidCommandRequestId)
          else if id != requestId then Some(RequestIdMismatch)
          else None
  }

  function CommandOf(c: RawCommand, requestId: Texts.Text, serverStep: int): Command
    requires c.ctype.Some? && c.priority.Some? && PriorityOfCode(c.priority.value).Some? && c.timestamp.Some?
    requires CloneJson(c.payload).Some?
  {
    Command(c.ctype.value, PriorityOfCode(c.priority.value).value, c.timestamp.value, serverStep,
            CloneJson(c.payload).value, Some(requestId))
  }

  // ----- steps of the server

  function Unexpired(registry: map<Texts.Text, Kept>, at: int): map<Texts.Text, Kept> {
    map key | key in registry && registry[key].expiresAt > at :: registry[key]
  }

  function StillPending(pending: map<Texts.Text, Pending>, at: int): map<Texts.Text, Pending> {
    map id | id in pending && pending[id].expiresAt > at :: pending[id]
  }

  function Purge(s: State, at: int): State {
    s.(registry := Unexpired(s.registry, at), pending := StillPending(s.pending, at))
  }

  function Record(s: State, key: Texts.Text, response: Response, expiresAt: int): State {
    s.(registry := s.registry[key := Kept(response, expiresAt)], recorded := s.recorded + [Recording(key, response)])
  }

  function Await(s: State, requestId: Texts.Text, key: Texts.Text, expiresAt: int): State {
    s.(pending := s.pending[requestId := Pending(key, expiresAt)])
  }

  datatype Handled = Handled(state: State, response: Response)

  /** Puts a response on record and waits for an outcome under its key. */
  function Answer(cfg: Config, s: State, at: int, clientId: Texts.Text, requestId: Texts.Text,
                  response: Response): State
  {
    var key, expiresAt := cfg.keyOf(clientId, requestId), at + cfg.ttlMs;
    Await(Record(s, key, response, expiresAt), requestId, key, expiresAt)
  }

  /** The submission of an envelope in which nothing is wrong. */
  function SubmissionOf(cfg: Config, at: int, next: Option<int>, env: Envelope, clientId: Texts.Text,
                        requestId: Texts.Text)
    : (e: Submission)
    requires Problem(cfg, env, requestId).None?
    ensures e.clientId == clientId && e.requestId == requestId && e.at == at && e.command.requestId == Some(requestId)
  {
    var c := env.command.value;
    Submission(clientId, requestId, at, CommandOf(c, requestId, ServerStep(c.step, next)))
  }

  function Accept(cfg: Config, s: State, e: Submission, response: Response): State {
    Answer(cfg, s.(submitted := s.submitted + [e]), e.at, e.clientId, e.requestId, response)
  }

  /** A request with valid ids, on a purged server that has no response for it. */
  function HandleNew(cfg: Config, s: State, at: int, next: Option<int>, env: Envelope, clientId: Texts.Text,
                     requestId: Texts.Text): Handled
  {
    var key := cfg.keyOf(clientId, requestId);
    if requestId in s.pending && s.pending[requestId].key != key then
      var response := Reject(requestId, next, RequestIdInUse);
      Handled(Record(s, key, response, at + cfg.ttlMs), response)
    else
      var problem := Problem(cfg, env, requestId);
      if problem.Some? then
        var response := Reject(requestId, next, problem.value);
        Handled(Answer(cfg, s, at, clientId, requestId, response), response)
      else
        var e := SubmissionOf(cfg, at, next, env, clientId, requestId);
        var response := Response(requestId, Accepted, e.command.step, None);
        Handled(Accept(cfg, s, e, response), response)
  }

  function Handle(cfg: Config, s: State, at: int, next: Option<int>, env: Envelope): Handled {
    var purged := Purge(s, at);
    match NormalizeIdentifier(env.requestId, cfg.maxLength)
    case Err(error) =>
      Handled(purged, Reject(if env.requestId.Some? then env.requestId.value else [], next, error))
    case Ok(requestId) =>
      match NormalizeIdentifier(env.clientId, cfg.maxLength)
      case Err(error) => Handled(purged, Reject(requestId, next, error))
      case Ok(clientId) =>
        var key := cfg.keyOf(clientId, requestId);
        if key in purged.registry then Handled(purged, ToDuplicate(purged.registry[key].response))
        else HandleNew(cfg, purged, at, next, env, clientId, requestId)
  }

  function OutcomeResponse(requestId: Texts.Text, o: Outcome): Response {
    if o.failure.None? then Response(requestId, Accepted, o.serverStep, None)
    else Response(requestId, Rejected, o.serverStep, Some(ExecutionFailed(o.failure.value)))
  }

  /** One drained outcome: answered under the key that is waiting for its request id, if any. */
  function Settle(cfg: Config, s: State, at: int, o: Outcome): State {
    if !Awaited(s, o) then s
    else SettleAwaited(s, o.requestId.value, OutcomeResponse(o.requestId.value, o), at + cfg.ttlMs)
  }

  predicate Awaited(s: State, o: Outcome) {
    o.requestId.Some? && o.requestId.value != [] && o.requestId.value in s.pending
  }

  function SettleAwaited(s: State, id: Texts.Text, response: Response, expiresAt: int): State
    requires id in s.pending
  {
    Record(s, s.pending[id].key, response, expiresAt).(pending := s.pending - {id})
  }

  function SettleAll(cfg: Config, s: State, at: int, outcomes: seq<Outcome>, n: nat): State
    requires n <= |outcomes|
  {
    if n == 0 then s else Settle(cfg, SettleAll(cfg, s, at, outcomes, n - 1), at, outcomes[n - 1])
  }

  datatype Op =
    | Receive(at: int, next: Option<int>, envelope: Envelope)
    | Drain(at: int, outcomes: seq<Outcome>)
    | PurgeAt(at: int)

  function Step(cfg: Config, s: State, op: Op): State {
    match op
    case Receive(at, next, envelope) => Handle(cfg, s, at, next, envelope).state
    case Drain(at, outcomes) => SettleAll(cfg, Purge(s, at), at, outcomes, |outcomes|)
    case PurgeAt(at) => Purge(s, at)
  }

  function Stepping(cfg: Config): (State, Op) -> State {
    (s: State, op: Op) => Step(cfg, s, op)
  }

  function RunWith(step: (State, Op) -> State, s: State, ops: seq<Op>, n: nat): State
    requires n <= |ops|
  {
    if n == 0 then s else step(RunWith(step, s, ops, n - 1), ops[n - 1])
  }

  function Run(cfg: Config, s: State, ops: seq<Op>, n: nat): State
    requires n <= |ops|
  {
    RunWith(Stepping(cfg), s, ops, n)
  }

  const EMPTY: State := State(map[], map[], [], [])

  /** A clock that never goes back. */
  ghost predicate Clocked(ops: seq<Op>) {
    forall i, j | 0 <= i < j < |ops| :: ops[i].at <= ops[j].at
  }

  // ----- what a request is answered

  /** An id as a client should send it: text that is not blank, not too long, and trimmed. */
  predicate IdOk(id: Option<Texts.Text>, maxLength: nat) {
    && id.Some? && id.value != [] && |id.value| <= maxLength
    && !IsWhitespace(id.value[0]) && !IsWhitespace(id.value[|id.value| - 1])
  }

  lemma {:induction false} TrimLeftIsSame(t: Texts.Text)
    ensures TrimLeft(t) == t || |TrimLeft(t)| < |t|
    ensures TrimLeft(t) == t <==> t == [] || !IsWhitespace(t[0])
  {
    if t != [] && IsWhitespace(t[0]) {
      TrimLeftIsSame(t[1..]);
    }
  }

  lemma {:induction false} TrimRightIsSame(t: Texts.Text)
    ensures TrimRight(t) == t || |TrimRight(t)| < |t|
    ensures TrimRight(t) == t <==> t == [] || !IsWhitespace(t[|t| - 1])
  {
    if t != [] && IsWhitespace(t[|t| - 1]) {
      TrimRightIsSame(t[..|t| - 1]);
    }
  }

  /** Exactly such an id is taken, and taken as it is. */
  lemma NormalizesIff(id: Option<Texts.Text>, maxLength: nat)
    ensures NormalizeIdentifier(id, maxLength).Ok? <==> IdOk(id, maxLength)
    ensures IdOk(id, maxLength) ==> NormalizeIdentifier(id, maxLength).value == id.value
    ensures NormalizeIdentifier(id, maxLength) == Err(InvalidIdentifier) <==> id.None? || IsBlank(id.value)
  {
    if id.Some? {
      var t := id.value;
      TrimLeftIsSame(t);
      TrimRightIsSame(TrimLeft(t));
      if t != [] && !IsWhitespace(t[0]) {
        assert !IsBlank(t);
      }
    }
  }

  /** A body in which nothing is wrong: all fields are there, and an inner id is that of the envelope. */
  predicate BodyOk(env: Envelope) {
    && env.sentAt.Some? && env.command.Some?
    && var c := env.command.value;
       && c.ctype.Some? && !IsBlank(c.ctype.value) && c.priority.Some? && 0 <= c.priority.value <= 2
       && c.timestamp.Some? && c.step.Some? && c.step.value >= 0 && IsJson(c.payload)
       && (c.requestId == Omitted || (env.requestId.Some? && c.requestId == Given(env.requestId.value)))
  }

  lemma NoProblemIff(cfg: Config, env: Envelope)
    requires IdOk(env.requestId, cfg.maxLength)
    ensures Problem(cfg, env, env.requestId.value).None? <==> BodyOk(env)
  {
    NormalizesIff(env.requestId, cfg.maxLength);
    if env.command.Some? {
      CloneAcceptsJson(env.command.value.payload);
    }
  }

  /** A body's checks in the order they are made: whether one passes if all before it do. */
  predicate Check(env: Envelope, k: nat) {
    match k
    case 0 => env.sentAt.Some?
    case 1 => env.command.Some?
    case 2 => env.command.Some? && env.command.value.ctype.Some? && !IsBlank(env.command.value.ctype.value)
    case 3 => env.command.Some? && env.command.value.priority.Some? && 0 <= env.command.value.priority.value <= 2
    case 4 => env.command.Some? && env.command.value.timestamp.Some?
    case 5 => env.command.Some? && env.command.value.step.Some? && env.command.value.step.value >= 0
    case 6 => env.command.Some? && IsJson(env.command.value.payload)
    case _ => true
  }

  /** What is wrong with an inner id: it is none, or it is not the one of the envelope. */
  predicate InnerFault(env: Envelope, maxLength: nat, e: ErrorCode) {
    && env.command.Some? && env.command.value.requestId != Omitted
    && match env.command.value.requestId
       case NotText => e == InvalidCommandRequestId
       case Given(id) =>
         if !IdOk(Some(id), maxLength) then e == InvalidCommandRequestId
         else Some(id) != env.requestId && e == RequestIdMismatch
       case Omitted => false
  }

  /** The first thing wrong with a body. */
  ghost predicate FirstFault(env: Envelope, maxLength: nat, e: ErrorCode) {
    if forall k: nat | k < 7 :: Check(env, k) then InnerFault(env, maxLength, e)
    else
      exists k: nat ::
        && k < 7 && !Check(env, k) && (forall j: nat | j < k :: Check(env, j))
        && e == match k {
                  case 0 => InvalidSentAt
                  case 1 => InvalidCommand
                  case 2 => InvalidCommandType
                  case 3 => InvalidCommandPriority
                  case 4 => InvalidCommandTimestamp
                  case 5 => InvalidCommandStep
                  case _ => InvalidCommandPayload
                }
  }

  lemma AllChecks(env: Envelope)
    ensures (forall k: nat | k < 7 :: Check(env, k)) <==>
              && Check(env, 0) && Check(env, 1) && Check(env, 2) && Check(env, 3) && Check(env, 4) && Check(env, 5)
              && Check(env, 6)
  {
    if Check(env, 0) && Check(env, 1) && Check(env, 2) && Check(env, 3) && Check(env, 4) && Check(env, 5)
       && Check(env, 6) {
      forall k: nat | k < 7
        ensures Check(env, k)
      {
      }
    }
  }

  /** A body is rejected for the first thing wrong with it. */
  lemma ProblemIsFirst(cfg: Config, env: Envelope)
    requires IdOk(env.requestId, cfg.maxLength) && Problem(cfg, env, env.requestId.value).Some?
    ensures FirstFault(env, cfg.maxLength, Problem(cfg, env, env.requestId.value).value)
  {
    AllChecks(env);
    var k: nat := if !Check(env, 0) then 0 else if !Check(env, 1) then 1 else if !Check(env, 2) then 2
                  else if !Check(env, 3) then 3 else if !Check(env, 4) then 4 else if !Check(env, 5) then 5
                  else if !Check(env, 6) then 6 else 7;
    if env.command.Some? {
      CloneAcceptsJson(env.command.value.payload);
      if env.command.value.requestId.Given? {
        NormalizesIff(Some(env.command.value.requestId.id), cfg.maxLength);
      }
    }
    if k < 7 {
      assert forall j: nat | j < k :: Check(env, j);
      assert !Check(env, k);
    }
  }

  /** Text with white space around an inner part that neither begins nor ends with any. */
  ghost predicate TrimsTo(t: Texts.Text, inner: Texts.Text) {
    && (inner == [] || (!IsWhitespace(inner[0]) && !IsWhitespace(inner[|inner| - 1])))
    && exists i, j :: 0 <= i <= j <= |t| && t[i..j] == inner && IsBlank(t[..i]) && IsBlank(t[j..])
  }

  lemma {:induction false} TrimLeftCuts(t: Texts.Text) returns (i: nat)
    ensures i <= |t| && TrimLeft(t) == t[i..] && IsBlank(t[..i]) && (i < |t| ==> !IsWhitespace(t[i]))
  {
    i := 0;
    if t != [] && IsWhitespace(t[0]) {
      i := TrimLeftCuts(t[1..]);
      assert t[..i + 1] == [t[0]] + t[1..][..i];
      i := i + 1;
    }
  }

  lemma {:induction false} TrimRightCuts(t: Texts.Text) returns (j: nat)
    ensures j <= |t| && TrimRight(t) == t[..j] && IsBlank(t[j..]) && (j > 0 ==> !IsWhitespace(t[j - 1]))
  {
    j := |t|;
    if t != [] && IsWhitespace(t[|t| - 1]) {
      j := TrimRightCuts(t[..|t| - 1]);
      assert t[j..] == t[..|t| - 1][j..] + [t[|t| - 1]];
    }
  }

  lemma TrimIsInner(t: Texts.Text)
    ensures TrimsTo(t, Trim(t))
  {
    var i := TrimLeftCuts(t);
    var rest := TrimLeft(t);
    var j := TrimRightCuts(rest);
    assert t[i..i + j] == Trim(t) && t[i + j..] == rest[j..];
  }

  /** An id that is not in order is missing or blank, too long once trimmed, or not trimmed. */
  ghost predicate IdFault(id: Option<Texts.Text>, maxLength: nat, e: ErrorCode) {
    if id.None? || IsBlank(id.value) then e == InvalidIdentifier
    else
      exists inner ::
        TrimsTo(id.value, inner)
        && if |inner| > maxLength then e == IdentifierTooLong
           else inner != id.value && e == InvalidIdentifierFormat
  }

  lemma NormalizeFaults(id: Option<Texts.Text>, maxLength: nat)
    requires NormalizeIdentifier(id, maxLength).Err?
    ensures IdFault(id, maxLength, NormalizeIdentifier(id, maxLength).error)
  {
    if id.Some? {
      TrimIsInner(id.value);
    }
  }

  /** A setting that is missing or not positive takes its default, any other is rounded down. */
  lemma SettingIs(value: Option<real>, default_: nat)
    ensures var r := Setting(value, default_);
            if value.None? || value.value <= 0.0 then r == default_
            else r as real <= value.value && value.value < (r + 1) as real
  {
  }

  /** What is left of the server at a time: what expires later, and nothing else changes. */
  ghost predicate IsAlive(s: State, at: int, live: State) {
    && live.recorded == s.recorded && live.submitted == s.submitted
    && (forall key :: key in live.registry <==> key in s.registry && s.registry[key].expiresAt > at)
    && (forall key | key in live.registry :: live.registry[key] == s.registry[key])
    && (forall id :: id in live.pending <==> id in s.pending && s.pending[id].expiresAt > at)
    && forall id | id in live.pending :: live.pending[id] == s.pending[id]
  }

  lemma PurgedIsAlive(s: State, at: int)
    ensures IsAlive(s, at, Purge(s, at))
  {
  }

  /** A response is put on record under a key for a TTL. */
  ghost predicate Records(cfg: Config, s: State, t: State, at: int, key: Texts.Text, response: Response) {
    && t.registry == s.registry[key := Kept(response, at + cfg.ttlMs)]
    && t.recorded == s.recorded + [Recording(key, response)]
  }

  /** The command that an envelope is turned into, for the next executable step where that is known. */
  ghost predicate Carries(c: Command, env: Envelope, next: Option<int>) {
    && env.command.Some? && env.requestId.Some?
    && var raw := env.command.value;
       && Some(c.ctype) == raw.ctype && Some(c.priority.Rank()) == raw.priority && Some(c.timestamp) == raw.timestamp
       && Some(c.payload) == CloneJson(raw.payload) && c.requestId == env.requestId
       && Some(c.step) == if next.Some? && next.value >= 0 then next else raw.step
  }

  /** A response that rejects, whatever for. */
  ghost predicate Rejects(response: Response, requestId: Texts.Text, next: Option<int>) {
    && response.requestId == requestId && response.status == Rejected && response.error.Some?
    && response.serverStep == if next.Some? && next.value >= 0 then next.value else 0
  }

  /**
   * What an envelope is answered by a server without expired entries, and what it leaves there. Ids that are
   * not in order are rejected and leave nothing. What is on record for the pair of ids is repeated. Otherwise
   * the answer is put on record: a rejection when somebody else waits for the request id or the body is not in
   * order, and else an acceptance, with the command submitted. The client waits, unless somebody else does.
   */
  ghost predicate Replied(cfg: Config, live: State, at: int, next: Option<int>, env: Envelope, t: State,
                          response: Response)
  {
    if !IdOk(env.requestId, cfg.maxLength) || !IdOk(env.clientId, cfg.maxLength) then
      && t == live && Rejects(response, if env.requestId.Some? then env.requestId.value else [], next)
      && IdFault(if IdOk(env.requestId, cfg.maxLength) then env.clientId else env.requestId, cfg.maxLength,
                 response.error.value)
    else
      var id, client := env.requestId.value, env.clientId.value;
      var key := cfg.keyOf(client, id);
      if key in live.registry then
        && t == live
        && var was := live.registry[key].response;
           response == Response(was.requestId, Duplicate, was.serverStep, was.error)
      else
        && Records(cfg, live, t, at, key, response)
        && if id in live.pending && live.pending[id].key != key then
             && t.pending == live.pending && t.submitted == live.submitted
             && Rejects(response, id, next) && response.error == Some(RequestIdInUse)
           else
             && t.pending == live.pending[id := Pending(key, at + cfg.ttlMs)]
             && if !BodyOk(env) then
                  && t.submitted == live.submitted && Rejects(response, id, next)
                  && FirstFault(env, cfg.maxLength, response.error.value)
                else
                  && |t.submitted| == |live.submitted| + 1 && t.submitted[..|live.submitted|] == live.submitted
                  && var e := t.submitted[|live.submitted|];
                     && e.clientId == client && e.requestId == id && e.at == at && Carries(e.command, env, next)
                     && response == Response(id, Accepted, e.command.step, None)
  }

  /** Every envelope is handled so. */
  lemma HandleReplies(cfg: Config, s: State, at: int, next: Option<int>, env: Envelope)
    ensures var h := Handle(cfg, s, at, next, env);
            Replied(cfg, Purge(s, at), at, next, env, h.state, h.response)
  {
    NormalizesIff(env.requestId, cfg.maxLength);
    NormalizesIff(env.clientId, cfg.maxLength);
    if !IdOk(env.requestId, cfg.maxLength) {
      NormalizeFaults(env.requestId, cfg.maxLength);
    } else if !IdOk(env.clientId, cfg.maxLength) {
      NormalizeFaults(env.clientId, cfg.maxLength);
    } else if cfg.keyOf(env.clientId.value, env.requestId.value) !in Purge(s, at).registry {
      HandleNewReplies(cfg, Purge(s, at), at, next, env);
    }
  }

  lemma HandleNewReplies(cfg: Config, live: State, at: int, next: Option<int>, env: Envelope)
    requires IdOk(env.requestId, cfg.maxLength) && IdOk(env.clientId, cfg.maxLength)
    requires cfg.keyOf(env.clientId.value, env.requestId.value) !in live.registry
    ensures var h := HandleNew(cfg, live, at, next, env, env.clientId.value, env.requestId.value);
            Replied(cfg, live, at, next, env, h.state, h.response)
  {
    NoProblemIff(cfg, env);
    if BodyOk(env) {
      AcceptedReplies(cfg, live, at, next, env);
    } else {
      ProblemIsFirst(cfg, env);
    }
  }

  lemma AcceptedReplies(cfg: Config, live: State, at: int, next: Option<int>, env: Envelope)
    requires IdOk(env.requestId, cfg.maxLength) && IdOk(env.clientId, cfg.maxLength) && BodyOk(env)
    requires cfg.keyOf(env.clientId.value, env.requestId.value) !in live.registry
    ensures var h := HandleNew(cfg, live, at, next, env, env.clientId.value, env.requestId.value);
            Replied(cfg, live, at, next, env, h.state, h.response)
  {
    SubmissionCarries(cfg, at, next, env, env.clientId.value);
  }

  lemma SubmissionCarries(cfg: Config, at: int, next: Option<int>, env: Envelope, clientId: Texts.Text)
    requires IdOk(env.requestId, cfg.maxLength) && BodyOk(env)
    ensures Problem(cfg, env, env.requestId.value).None?
    ensures Carries(SubmissionOf(cfg, at, next, env, clientId, env.requestId.value).command, env, next)
  {
    NoProblemIff(cfg, env);
    CloneAcceptsJson(env.command.value.payload);
  }

  // ----- what outcomes are answered

  /** A response that tells an outcome: accepted without an error, or rejected with the code of the failure. */
  ghost predicate Tells(response: Response, o: Outcome) {
    && o.requestId == Some(response.requestId) && response.serverStep == o.serverStep
    && match o.failure {
         case None => response.status == Accepted && response.error == None
         case Some(code) => response.status == Rejected && response.error == Some(ExecutionFailed(code))
       }
  }

  /** Somebody waits for the `k`-th outcome, and no earlier one of the drain ends the wait. */
  predicate WaitedFor(pending: map<Texts.Text, Pending>, outcomes: seq<Outcome>, k: nat)
    requires k < |outcomes|
  {
    && outcomes[k].requestId.Some? && outcomes[k].requestId.value != [] && outcomes[k].requestId.value in pending
    && forall j | 0 <= j < k :: outcomes[j].requestId != outcomes[k].requestId
  }

  /** Which of the first `n` outcomes somebody waits for, in order. */
  function WaitedIndices(pending: map<Texts.Text, Pending>, outcomes: seq<Outcome>, n: nat): (indices: seq<nat>)
    requires n <= |outcomes|
    ensures forall i | 0 <= i < |indices| :: indices[i] < n
  {
    if n == 0 then []
    else WaitedIndices(pending, outcomes, n - 1) + (if WaitedFor(pending, outcomes, n - 1) then [n - 1] else [])
  }

  /** What was recorded since: each of these outcomes is told under the key that waited for it, in order. */
  ghost predicate ToldTo(pending: map<Texts.Text, Pending>, outcomes: seq<Outcome>, indices: seq<nat>,
                         recorded: seq<Recording>)
  {
    && |recorded| == |indices|
    && forall i | 0 <= i < |indices| && indices[i] < |outcomes| ::
         var o := outcomes[indices[i]];
         && Tells(recorded[i].response, o) && o.requestId.value in pending
         && recorded[i].key == pending[o.requestId.value].key
  }

  /** Responses put on record one after the other, all for the same time. */
  function RecordAll(registry: map<Texts.Text, Kept>, recorded: seq<Recording>, expiresAt: int): map<Texts.Text, Kept> {
    if recorded == [] then registry
    else
      var n := |recorded| - 1;
      RecordAll(registry, recorded[..n], expiresAt)[recorded[n].key := Kept(recorded[n].response, expiresAt)]
  }

  /**
   * What a drain answers and leaves: in order, exactly the outcomes that somebody waits for are told, and put on
   * record for a TTL under the key that waited.
   */
  ghost predicate Drained(cfg: Config, live: State, at: int, outcomes: seq<Outcome>, t: State,
                          responses: seq<Response>)
  {
    exists told: seq<Recording> ::
      && Told(cfg, live, at, outcomes, |outcomes|, t, told)
      && |responses| == |told| && forall i | 0 <= i < |told| :: responses[i] == told[i].response
  }

  lemma ToldOneMore(pending: map<Texts.Text, Pending>, outcomes: seq<Outcome>, m: nat, indices: seq<nat>,
                    told: seq<Recording>, r: Recording)
    requires m < |outcomes| && WaitedFor(pending, outcomes, m) && ToldTo(pending, outcomes, indices, told)
    requires Tells(r.response, outcomes[m]) && r.key == pending[outcomes[m].requestId.value].key
    ensures ToldTo(pending, outcomes, indices + [m], told + [r])
  {
  }

  lemma RecordOneMore(registry: map<Texts.Text, Kept>, told: seq<Recording>, r: Recording, expiresAt: int)
    ensures RecordAll(registry, told + [r], expiresAt)
         == RecordAll(registry, told, expiresAt)[r.key := Kept(r.response, expiresAt)]
  {
    assert (told + [r])[..|told|] == told;
  }

  lemma LeftOneMore(pending: map<Texts.Text, Pending>, outcomes: seq<Outcome>, m: nat, left: map<Texts.Text, Pending>)
    requires m < |outcomes| && PendingLeft(pending, outcomes, m, left)
    ensures var o := outcomes[m];
            var waited := o.requestId.Some? && o.requestId.value != [] && o.requestId.value in left;
            && (waited <==> WaitedFor(pending, outcomes, m))
            && (waited ==> left[o.requestId.value] == pending[o.requestId.value])
            && PendingLeft(pending, outcomes, m + 1, if waited then left - {o.requestId.value} else left)
  {
  }

  /** From `s` to `t`, one outcome is told if somebody waits for it. */
  ghost predicate Settles(cfg: Config, s: State, at: int, o: Outcome, t: State) {
    if o.requestId.Some? && o.requestId.value != [] && o.requestId.value in s.pending then
      && |t.recorded| == |s.recorded| + 1 && t.pending == s.pending - {o.requestId.value}
      && t.submitted == s.submitted
      && var r := t.recorded[|s.recorded|];
         && t.recorded == s.recorded + [r] && Tells(r.response, o)
         && r.key == s.pending[o.requestId.value].key
         && t.registry == s.registry[r.key := Kept(r.response, at + cfg.ttlMs)]
    else t == s
  }

  lemma SettleTells(cfg: Config, s: State, at: int, o: Outcome)
    ensures Settles(cfg, s, at, o, Settle(cfg, s, at, o))
  {
  }

  /** From `live` to `t`, the first `n` outcomes were told to whoever waits, as `told` says. */
  ghost predicate Told(cfg: Config, live: State, at: int, outcomes: seq<Outcome>, n: nat, t: State,
                       told: seq<Recording>)
    requires n <= |outcomes|
  {
    && ToldTo(live.pending, outcomes, WaitedIndices(live.pending, outcomes, n), told)
    && t.recorded == live.recorded + told && t.submitted == live.submitted
    && t.registry == RecordAll(live.registry, told, at + cfg.ttlMs)
    && PendingLeft(live.pending, outcomes, n, t.pending)
  }

  lemma ToldNext(cfg: Config, live: State, at: int, outcomes: seq<Outcome>, m: nat, s: State, told: seq<Recording>,
                 t: State)
    returns (all: seq<Recording>)
    requires m < |outcomes| && Told(cfg, live, at, outcomes, m, s, told) && Settles(cfg, s, at, outcomes[m], t)
    ensures Told(cfg, live, at, outcomes, m + 1, t, all)
  {
    LeftOneMore(live.pending, outcomes, m, s.pending);
    all := told;
    if WaitedFor(live.pending, outcomes, m) {
      var r := t.recorded[|s.recorded|];
      ToldOneMore(live.pending, outcomes, m, WaitedIndices(live.pending, outcomes, m), told, r);
      RecordOneMore(live.registry, told, r, at + cfg.ttlMs);
      all := told + [r];
      assert live.recorded + told + [r] == live.recorded + all;
    } else {
      var indices := WaitedIndices(live.pending, outcomes, m);
      assert indices + [] == indices;
    }
  }

  lemma {:induction false} DrainTells(cfg: Config, live: State, at: int, outcomes: seq<Outcome>, n: nat)
    returns (told: seq<Recording>)
    requires n <= |outcomes|
    ensures Told(cfg, live, at, outcomes, n, SettleAll(cfg, live, at, outcomes, n), told)
  {
    told := [];
    if n > 0 {
      var m := n - 1;
      told := DrainTells(cfg, live, at, outcomes, m);
      var before := SettleAll(cfg, live, at, outcomes, m);
      SettleTells(cfg, before, at, outcomes[m]);
      told := ToldNext(cfg, live, at, outcomes, m, before, told, SettleAll(cfg, live, at, outcomes, n));
    }
  }

  /** Who still waits after the first `n` outcomes: those that none of them is for. */
  ghost predicate PendingLeft(pending: map<Texts.Text, Pending>, outcomes: seq<Outcome>, n: nat,
                              left: map<Texts.Text, Pending>)
    requires n <= |outcomes|
  {
    && (forall id :: id in left <==>
          id in pending && (id == [] || forall k | 0 <= k < n :: outcomes[k].requestId != Some(id)))
    && forall id | id in left :: left[id] == pending[id]
  }

  // ----- what every step keeps

  /** Whoever waits for a request id has a response on record that lives at least as long. */
  ghost predicate Covered(cfg: Config, pending: map<Texts.Text, Pending>, registry: map<Texts.Text, Kept>) {
    forall id | id in pending ::
      && pending[id].key in registry && registry[pending[id].key].expiresAt >= pending[id].expiresAt
      && exists clientId :: pending[id].key == cfg.keyOf(clientId, id)
  }

  function KeyOf(cfg: Config, e: Submission): Texts.Text {
    cfg.keyOf(e.clientId, e.requestId)
  }

  /** The response last recorded under a key. */
  ghost predicate IsLatest(recorded: seq<Recording>, key: Texts.Text, response: Response) {
    exists i :: 0 <= i < |recorded| && recorded[i] == Recording(key, response)
             && forall j | i < j < |recorded| :: recorded[j].key != key
  }

  ghost predicate Answers(recorded: seq<Recording>, registry: map<Texts.Text, Kept>) {
    forall key | key in registry :: IsLatest(recorded, key, registry[key].response)
  }

  /** Each submitted command keeps its key on record for a whole TTL. */
  ghost predicate Remembers(cfg: Config, submitted: seq<Submission>, registry: map<Texts.Text, Kept>, now: int) {
    forall i | 0 <= i < |submitted| :: RemembersOne(cfg, submitted[i], registry, now)
  }

  ghost predicate RemembersOne(cfg: Config, e: Submission, registry: map<Texts.Text, Kept>, now: int) {
    && e.at <= now
    && (now < e.at + cfg.ttlMs ==> KeyOf(cfg, e) in registry && registry[KeyOf(cfg, e)].expiresAt >= e.at + cfg.ttlMs)
  }

  /** Submissions under one key are a TTL apart. */
  ghost predicate Separated(cfg: Config, submitted: seq<Submission>) {
    forall i, j | 0 <= i < j < |submitted| && KeyOf(cfg, submitted[i]) == KeyOf(cfg, submitted[j]) ::
      submitted[i].at + cfg.ttlMs <= submitted[j].at
  }

  ghost predicate Inv(cfg: Config, s: State, now: int) {
    && Covered(cfg, s.pending, s.registry) && Answers(s.recorded, s.registry)
    && Remembers(cfg, s.submitted, s.registry, now) && Separated(cfg, s.submitted)
  }

  lemma PurgeKeeps(cfg: Config, s: State, now: int, at: int)
    requires Inv(cfg, s, now) && now <= at
    ensures Inv(cfg, Purge(s, at), at)
  {
    var t := Purge(s, at);
    forall i | 0 <= i < |s.submitted|
      ensures RemembersOne(cfg, t.submitted[i], t.registry, at)
    {
      assert RemembersOne(cfg, s.submitted[i], s.registry, now);
    }
  }

  lemma RecordedIsLatest(recorded: seq<Recording>, key: Texts.Text, response: Response, other: Texts.Text,
                         kept: Response)
    requires other != key ==> IsLatest(recorded, other, kept)
    requires other == key ==> kept == response
    ensures IsLatest(recorded + [Recording(key, response)], other, kept)
  {
    var after := recorded + [Recording(key, response)];
    if other == key {
      assert after[|recorded|] == Recording(key, response);
    } else {
      var i :| 0 <= i < |recorded| && recorded[i] == Recording(other, kept)
               && forall j | i < j < |recorded| :: recorded[j].key != other;
      assert after[i] == Recording(other, kept);
    }
  }

  lemma RecordKeepsAnswers(recorded: seq<Recording>, registry: map<Texts.Text, Kept>, key: Texts.Text, kept: Kept)
    requires Answers(recorded, registry)
    ensures Answers(recorded + [Recording(key, kept.response)], registry[key := kept])
  {
    var after := registry[key := kept];
    forall other | other in after
      ensures IsLatest(recorded + [Recording(key, kept.response)], other, after[other].response)
    {
      RecordedIsLatest(recorded, key, kept.response, other, after[other].response);
    }
  }

  /** A record that lives a full TTL from now on shortens no life. */
  lemma RecordKeepsRemembers(cfg: Config, submitted: seq<Submission>, registry: map<Texts.Text, Kept>, now: int,
                             key: Texts.Text, response: Response)
    requires Remembers(cfg, submitted, registry, now)
    ensures Remembers(cfg, submitted, registry[key := Kept(response, now + cfg.ttlMs)], now)
  {
    forall i | 0 <= i < |submitted|
      ensures RemembersOne(cfg, submitted[i], registry[key := Kept(response, now + cfg.ttlMs)], now)
    {
      assert RemembersOne(cfg, submitted[i], registry, now);
    }
  }

  /** Recording under a key without a response, on which nobody waits, keeps the invariant. */
  lemma RecordNewKeeps(cfg: Config, s: State, now: int, key: Texts.Text, response: Response)
    requires Inv(cfg, s, now) && key !in s.registry
    ensures Inv(cfg, Record(s, key, response, now + cfg.ttlMs), now)
  {
    RecordKeepsAnswers(s.recorded, s.registry, key, Kept(response, now + cfg.ttlMs));
    RecordKeepsRemembers(cfg, s.submitted, s.registry, now, key, response);
  }

  lemma AwaitKeeps(cfg: Config, s: State, now: int, clientId: Texts.Text, id: Texts.Text, expiresAt: int)
    requires Inv(cfg, s, now)
    requires var key := cfg.keyOf(clientId, id); key in s.registry && s.registry[key].expiresAt == expiresAt
    ensures Inv(cfg, Await(s, id, cfg.keyOf(clientId, id), expiresAt), now)
  {
  }

  /** A command may be submitted when none was within the last TTL, if its key goes on record. */
  lemma SubmitKeeps(cfg: Config, s: State, now: int, e: Submission)
    requires Inv(cfg, s, now) && RemembersOne(cfg, e, s.registry, now) && e.at == now
    requires forall i | 0 <= i < |s.submitted| && KeyOf(cfg, s.submitted[i]) == KeyOf(cfg, e) ::
               s.submitted[i].at + cfg.ttlMs <= now
    ensures Inv(cfg, s.(submitted := s.submitted + [e]), now)
  {
  }

  /** A key that is not on record was not submitted within the last TTL. */
  lemma NotSubmittedLately(cfg: Config, s: State, now: int, key: Texts.Text)
    requires Inv(cfg, s, now) && key !in s.registry
    ensures forall i | 0 <= i < |s.submitted| && KeyOf(cfg, s.submitted[i]) == key ::
              s.submitted[i].at + cfg.ttlMs <= now
  {
    forall i | 0 <= i < |s.submitted| && KeyOf(cfg, s.submitted[i]) == key
      ensures s.submitted[i].at + cfg.ttlMs <= now
    {
      assert RemembersOne(cfg, s.submitted[i], s.registry, now);
    }
  }

  lemma HandleKeeps(cfg: Config, s: State, now: int, at: int, next: Option<int>, env: Envelope)
    requires Inv(cfg, s, now) && now <= at
    ensures Inv(cfg, Handle(cfg, s, at, next, env).state, at)
  {
    var purged := Purge(s, at);
    PurgeKeeps(cfg, s, now, at);
    var r, c := NormalizeIdentifier(env.requestId, cfg.maxLength), NormalizeIdentifier(env.clientId, cfg.maxLength);
    if r.Ok? && c.Ok? && cfg.keyOf(c.value, r.value) !in purged.registry {
      HandleNewKeeps(cfg, purged, at, next, env, c.value, r.value);
    }
  }

  lemma AnswerKeeps(cfg: Config, s: State, at: int, clientId: Texts.Text, id: Texts.Text, response: Response)
    requires Inv(cfg, s, at) && cfg.keyOf(clientId, id) !in s.registry
    ensures Inv(cfg, Answer(cfg, s, at, clientId, id, response), at)
  {
    var key, expiresAt := cfg.keyOf(clientId, id), at + cfg.ttlMs;
    RecordNewKeeps(cfg, s, at, key, response);
    var recorded := Record(s, key, response, expiresAt);
    assert recorded.registry[key] == Kept(response, expiresAt);
    AwaitKeeps(cfg, recorded, at, clientId, id, expiresAt);
    assert Answer(cfg, s, at, clientId, id, response) == Await(recorded, id, key, expiresAt);
  }

  lemma AcceptKeeps(cfg: Config, s: State, e: Submission, response: Response)
    requires Inv(cfg, s, e.at) && KeyOf(cfg, e) !in s.registry
    ensures Inv(cfg, Accept(cfg, s, e, response), e.at)
  {
    AnswerKeeps(cfg, s, e.at, e.clientId, e.requestId, response);
    NotSubmittedLately(cfg, s, e.at, KeyOf(cfg, e));
    SubmitKeeps(cfg, Answer(cfg, s, e.at, e.clientId, e.requestId, response), e.at, e);
  }

  lemma HandleNewKeeps(cfg: Config, s: State, at: int, next: Option<int>, env: Envelope, clientId: Texts.Text,
                       id: Texts.Text)
    requires Inv(cfg, s, at) && cfg.keyOf(clientId, id) !in s.registry
    ensures Inv(cfg, HandleNew(cfg, s, at, next, env, clientId, id).state, at)
  {
    var handled := HandleNew(cfg, s, at, next, env, clientId, id);
    var response, t := handled.response, handled.state;
    var key := cfg.keyOf(clientId, id);
    if id in s.pending && s.pending[id].key != key {
      RecordNewKeeps(cfg, s, at, key, response);
      assert t == Record(s, key, response, at + cfg.ttlMs);
    } else if Problem(cfg, env, id).Some? {
      AnswerKeeps(cfg, s, at, clientId, id, response);
      assert t == Answer(cfg, s, at, clientId, id, response);
    } else {
      var e := SubmissionOf(cfg, at, next, env, clientId, id);
      AcceptKeeps(cfg, s, e, response);
      assert t == Accept(cfg, s, e, response);
    }
  }

  /** Nobody else waits under the key of a pending request. */
  lemma OneWaits(cfg: Config, s: State, id: Texts.Text, other: Texts.Text)
    requires Keyed(cfg) && Covered(cfg, s.pending, s.registry) && id in s.pending && other in s.pending
    requires s.pending[id].key == s.pending[other].key
    ensures id == other
  {
    var c :| s.pending[id].key == cfg.keyOf(c, id);
    var d :| s.pending[other].key == cfg.keyOf(d, other);
    assert cfg.keyOf(c, id) == cfg.keyOf(d, other);
  }

  lemma SettleKeepsCovered(cfg: Config, s: State, id: Texts.Text, kept: Kept)
    requires Keyed(cfg) && Covered(cfg, s.pending, s.registry) && id in s.pending
    ensures Covered(cfg, s.pending - {id}, s.registry[s.pending[id].key := kept])
  {
    forall other | other in s.pending && other != id
      ensures s.pending[other].key != s.pending[id].key
    {
      if s.pending[other].key == s.pending[id].key {
        OneWaits(cfg, s, id, other);
      }
    }
  }

  lemma SettleAwaitedKeeps(cfg: Config, s: State, at: int, id: Texts.Text, response: Response)
    requires Keyed(cfg) && Inv(cfg, s, at) && id in s.pending
    ensures Inv(cfg, SettleAwaited(s, id, response, at + cfg.ttlMs), at)
  {
    var key := s.pending[id].key;
    RecordKeepsAnswers(s.recorded, s.registry, key, Kept(response, at + cfg.ttlMs));
    RecordKeepsRemembers(cfg, s.submitted, s.registry, at, key, response);
    SettleKeepsCovered(cfg, s, id, Kept(response, at + cfg.ttlMs));
  }

  lemma SettleKeeps(cfg: Config, s: State, at: int, o: Outcome)
    requires Keyed(cfg) && Inv(cfg, s, at)
    ensures Inv(cfg, Settle(cfg, s, at, o), at)
  {
    if Awaited(s, o) {
      SettleAwaitedKeeps(cfg, s, at, o.requestId.value, OutcomeResponse(o.requestId.value, o));
    }
  }

  lemma {:induction false} SettleAllKeeps(cfg: Config, s: State, at: int, outcomes: seq<Outcome>, n: nat)
    requires Keyed(cfg) && n <= |outcomes| && Inv(cfg, s, at)
    ensures Inv(cfg, SettleAll(cfg, s, at, outcomes, n), at)
  {
    if n > 0 {
      SettleAllKeeps(cfg, s, at, outcomes, n - 1);
      SettleKeeps(cfg, SettleAll(cfg, s, at, outcomes, n - 1), at, outcomes[n - 1]);
    }
  }

  lemma StepKeeps(cfg: Config, s: State, now: int, op: Op)
    requires Keyed(cfg) && Inv(cfg, s, now) && now <= op.at
    ensures Inv(cfg, Step(cfg, s, op), op.at)
  {
    match op
    case Receive(at, next, envelope) => HandleKeeps(cfg, s, now, at, next, envelope);
    case Drain(at, outcomes) =>
      PurgeKeeps(cfg, s, now, at);
      SettleAllKeeps(cfg, Purge(s, at), at, outcomes, |outcomes|);
    case PurgeAt(at) => PurgeKeeps(cfg, s, now, at);
  }

  function TimeAfter(ops: seq<Op>, n: nat, start: int): int
    requires n <= |ops|
  {
    if n == 0 then start else ops[n - 1].at
  }

  /** What every step of a run keeps, the whole run keeps. */
  lemma {:induction false} KeptByRun(step: (State, Op) -> State, kept: (State, int) -> bool, s: State, ops: seq<Op>,
                                     n: nat, start: int)
    requires n <= |ops| && Clocked(ops) && (|ops| > 0 ==> start <= ops[0].at) && kept(s, start)
    requires forall k, t: State, time: int {:trigger step(t, ops[k]), kept(t, time)} |
               0 <= k < |ops| && kept(t, time) && time <= ops[k].at :: kept(step(t, ops[k]), ops[k].at)
    ensures kept(RunWith(step, s, ops, n), TimeAfter(ops, n, start))
  {
    if n > 0 {
      KeptByRun(step, kept, s, ops, n - 1, start);
      assert TimeAfter(ops, n - 1, start) <= ops[n - 1].at;
    }
  }

  /**
   * Under a clock that never goes back, every run keeps the invariant; in particular two commands
   * submitted for the same client and request are at least one TTL apart.
   */
  lemma EveryRunKeepsInv(cfg: Config, ops: seq<Op>, n: nat, start: int)
    requires Keyed(cfg) && n <= |ops| && Clocked(ops) && (|ops| > 0 ==> start <= ops[0].at)
    ensures Inv(cfg, Run(cfg, EMPTY, ops, n), TimeAfter(ops, n, start))
  {
    var step, kept := Stepping(cfg), (t: State, time: int) => Inv(cfg, t, time);
    forall k, t: State, time: int {:trigger step(t, ops[k]), kept(t, time)} | 0 <= k < |ops| && kept(t, time)
        && time <= ops[k].at
      ensures kept(step(t, ops[k]), ops[k].at)
    {
      StepKeeps(cfg, t, time, ops[k]);
    }
    KeptByRun(step, kept, EMPTY, ops, n, start);
  }

  /** Two submissions of any run for one client and request are at least one TTL apart. */
  lemma {:induction false} SubmissionsAreATtlApart(cfg: Config, ops: seq<Op>, i: nat, j: nat)
    requires cfg.keyOf == KeyPrinter() && Clocked(ops)
    requires i < j < |Run(cfg, EMPTY, ops, |ops|).submitted|
    requires var e, f := Run(cfg, EMPTY, ops, |ops|).submitted[i], Run(cfg, EMPTY, ops, |ops|).submitted[j];
             e.clientId == f.clientId && e.requestId == f.requestId
    ensures var e, f := Run(cfg, EMPTY, ops, |ops|).submitted[i], Run(cfg, EMPTY, ops, |ops|).submitted[j];
            f.at >= e.at + cfg.ttlMs
  {
    PrintedKeysAreKeyed(cfg);
    EveryRunKeepsInv(cfg, ops, |ops|, if |ops| > 0 then ops[0].at else 0);
  }

  /** A well-formed request for the same client and request id as a submission, within its TTL. */
  ghost predicate Resends(cfg: Config, env: Envelope, e: Submission, at: int) {
    && at < e.at + cfg.ttlMs
    && NormalizeIdentifier(env.requestId, cfg.maxLength) == Ok(e.requestId)
    && NormalizeIdentifier(env.clientId, cfg.maxLength) == Ok(e.clientId)
  }

  /** The answer is `duplicate` with the response recorded last, and nothing is recorded or submitted. */
  ghost predicate AnsweredFromRecord(cfg: Config, s: State, key: Texts.Text, at: int, h: Handled) {
    exists latest ::
      && IsLatest(s.recorded, key, latest) && h.state == Purge(s, at)
      && h.response == Response(latest.requestId, Duplicate, latest.serverStep, latest.error)
  }

  lemma ResendFindsResponse(cfg: Config, s: State, now: int, e: Submission, at: int, next: Option<int>, env: Envelope)
    requires Inv(cfg, s, now) && RemembersOne(cfg, e, s.registry, now) && now <= at && Resends(cfg, env, e, at)
    ensures AnsweredFromRecord(cfg, s, KeyOf(cfg, e), at, Handle(cfg, s, at, next, env))
  {
    var key := KeyOf(cfg, e);
    assert IsLatest(s.recorded, key, s.registry[key].response);
    assert key in Purge(s, at).registry;
  }

  lemma ResendInState(cfg: Config, s: State, now: int, i: nat, at: int, next: Option<int>, env: Envelope)
    requires Inv(cfg, s, now) && i < |s.submitted| && now <= at && Resends(cfg, env, s.submitted[i], at)
    ensures AnsweredFromRecord(cfg, s, KeyOf(cfg, s.submitted[i]), at, Handle(cfg, s, at, next, env))
  {
    ResendFindsResponse(cfg, s, now, s.submitted[i], at, next, env);
  }

  /** A well-formed resend within the TTL of a submission is answered `duplicate`, from the response recorded last. */
  lemma {:induction false} ResendIsDuplicate(cfg: Config, ops: seq<Op>, i: nat, at: int, next: Option<int>,
                                             env: Envelope)
    requires cfg.keyOf == KeyPrinter() && Clocked(ops) && i < |Run(cfg, EMPTY, ops, |ops|).submitted|
    requires |ops| > 0 ==> ops[|ops| - 1].at <= at
    requires Resends(cfg, env, Run(cfg, EMPTY, ops, |ops|).submitted[i], at)
    ensures var s := Run(cfg, EMPTY, ops, |ops|);
            AnsweredFromRecord(cfg, s, KeyOf(cfg, s.submitted[i]), at, Handle(cfg, s, at, next, env))
  {
    var now := TimeAfter(ops, |ops|, at);
    PrintedKeysAreKeyed(cfg);
    EveryRunKeepsInv(cfg, ops, |ops|, if |ops| > 0 then ops[0].at else at);
    ResendInState(cfg, Run(cfg, EMPTY, ops, |ops|), now, i, at, next, env);
  }

  // ----- who an outcome goes to

  /** The client of a submitted command is the one waiting for its request id. */
  ghost predicate Owns(cfg: Config, s: State, e: Submission) {
    e.requestId in s.pending && s.pending[e.requestId] == Pending(KeyOf(cfg, e), e.at + cfg.ttlMs)
  }

  predicate Mentions(op: Op, requestId: Texts.Text) {
    op.Drain? && exists k :: 0 <= k < |op.outcomes| && op.outcomes[k].requestId == Some(requestId)
  }

  lemma OwnedIsOnRecord(cfg: Config, s: State, now: int, e: Submission, at: int)
    requires Inv(cfg, s, now) && Owns(cfg, s, e) && at < e.at + cfg.ttlMs
    ensures Owns(cfg, Purge(s, at), e) && KeyOf(cfg, e) in Purge(s, at).registry
  {
  }

  lemma {:induction false} OthersKeepOwner(cfg: Config, s: State, e: Submission, at: int, outcomes: seq<Outcome>,
                                           n: nat)
    requires n <= |outcomes| && Owns(cfg, s, e)
    requires forall k | 0 <= k < n :: outcomes[k].requestId != Some(e.requestId)
    ensures Owns(cfg, SettleAll(cfg, s, at, outcomes, n), e)
  {
    if n > 0 {
      OthersKeepOwner(cfg, s, e, at, outcomes, n - 1);
    }
  }

  lemma NewRequestsKeepOwner(cfg: Config, s: State, e: Submission, at: int, next: Option<int>, env: Envelope,
                             clientId: Texts.Text, id: Texts.Text)
    requires Owns(cfg, s, e) && KeyOf(cfg, e) in s.registry && cfg.keyOf(clientId, id) !in s.registry
    ensures Owns(cfg, HandleNew(cfg, s, at, next, env, clientId, id).state, e)
  {
  }

  lemma StepKeepsOwner(cfg: Config, s: State, now: int, e: Submission, op: Op)
    requires Inv(cfg, s, now) && Owns(cfg, s, e) && op.at < e.at + cfg.ttlMs && !Mentions(op, e.requestId)
    ensures Owns(cfg, Step(cfg, s, op), e)
  {
    OwnedIsOnRecord(cfg, s, now, e, op.at);
    var purged := Purge(s, op.at);
    match op
    case Receive(at, next, env) =>
      var r, c := NormalizeIdentifier(env.requestId, cfg.maxLength), NormalizeIdentifier(env.clientId, cfg.maxLength);
      if r.Ok? && c.Ok? && cfg.keyOf(c.value, r.value) !in purged.registry {
        NewRequestsKeepOwner(cfg, purged, e, at, next, env, c.value, r.value);
      }
    case Drain(at, outcomes) => OthersKeepOwner(cfg, purged, e, at, outcomes, |outcomes|);
    case PurgeAt(_) =>
  }

  /** A step within the TTL of a submission that drains no outcome for it. */
  ghost predicate Spares(cfg: Config, op: Op, e: Submission) {
    op.at < e.at + cfg.ttlMs && !Mentions(op, e.requestId)
  }

  ghost predicate Waits(cfg: Config, s: State, now: int, e: Submission) {
    Inv(cfg, s, now) && Owns(cfg, s, e)
  }

  lemma StepKeepsWaiting(cfg: Config, s: State, now: int, e: Submission, op: Op)
    requires Keyed(cfg) && Waits(cfg, s, now, e) && now <= op.at && Spares(cfg, op, e)
    ensures Waits(cfg, Step(cfg, s, op), op.at, e)
  {
    StepKeeps(cfg, s, now, op);
    StepKeepsOwner(cfg, s, now, e, op);
  }

  // whole runs

  /** The submission that handling an envelope makes, if it makes one. */
  lemma SubmissionIsOwned(cfg: Config, s: State, at: int, next: Option<int>, env: Envelope, e: Submission)
    requires Handle(cfg, s, at, next, env).state.submitted == s.submitted + [e]
    ensures Owns(cfg, Handle(cfg, s, at, next, env).state, e) && e.at == at
    ensures var purged := Purge(s, at);
            e.requestId in purged.pending ==> purged.pending[e.requestId].key == KeyOf(cfg, e)
  {
    var purged, handled := Purge(s, at), Handle(cfg, s, at, next, env).state;
    var r, c := NormalizeIdentifier(env.requestId, cfg.maxLength), NormalizeIdentifier(env.clientId, cfg.maxLength);
    if r.Ok? && c.Ok? && cfg.keyOf(c.value, r.value) !in purged.registry {
      assert handled == HandleNew(cfg, purged, at, next, env, c.value, r.value).state;
      NewSubmissionIsOwned(cfg, purged, at, next, env, c.value, r.value, e);
    }
  }

  lemma NewSubmissionIsOwned(cfg: Config, s: State, at: int, next: Option<int>, env: Envelope, clientId: Texts.Text,
                             id: Texts.Text, e: Submission)
    requires HandleNew(cfg, s, at, next, env, clientId, id).state.submitted == s.submitted + [e]
    ensures Owns(cfg, HandleNew(cfg, s, at, next, env, clientId, id).state, e) && e.at == at
    ensures e.requestId in s.pending ==> s.pending[e.requestId].key == KeyOf(cfg, e)
  {
    var t := HandleNew(cfg, s, at, next, env, clientId, id).state;
    if Problem(cfg, env, id).None? && !(id in s.pending && s.pending[id].key != cfg.keyOf(clientId, id)) {
      var made := SubmissionOf(cfg, at, next, env, clientId, id);
      assert t.submitted == s.submitted + [made];
      assert t.submitted[|s.submitted|] == made == e;
    }
  }

  /** Step `m` of the run submits `e`. */
  ghost predicate SubmitsAt(cfg: Config, ops: seq<Op>, m: nat, e: Submission)
    requires m < |ops|
  {
    ops[m].Receive? && Run(cfg, EMPTY, ops, m + 1).submitted == Run(cfg, EMPTY, ops, m).submitted + [e]
  }

  /** What later steps keep, they keep from step `m` on. */
  lemma {:induction false} KeptSince(step: (State, Op) -> State, kept: (State, int) -> bool, s: State, ops: seq<Op>,
                                     m: nat, n: nat)
    requires m < n <= |ops| && Clocked(ops) && kept(RunWith(step, s, ops, m + 1), ops[m].at)
    requires forall k, t: State, time: int {:trigger step(t, ops[k]), kept(t, time)} |
               m < k < n && kept(t, time) && time <= ops[k].at :: kept(step(t, ops[k]), ops[k].at)
    ensures kept(RunWith(step, s, ops, n), ops[n - 1].at)
  {
    if m + 1 < n {
      KeptSince(step, kept, s, ops, m, n - 1);
    }
  }

  lemma SubmittedIsOwned(cfg: Config, s: State, op: Op, t: State, e: Submission)
    requires op.Receive? && t == Step(cfg, s, op) && t.submitted == s.submitted + [e]
    ensures Owns(cfg, t, e) && e.at == op.at
  {
    SubmissionIsOwned(cfg, s, op.at, op.next, op.envelope, e);
  }

  /** Whoever submits a command waits for its request id. */
  lemma SubmitterWaits(cfg: Config, ops: seq<Op>, m: nat, e: Submission)
    requires Keyed(cfg) && Clocked(ops) && m < |ops| && SubmitsAt(cfg, ops, m, e)
    ensures Waits(cfg, Run(cfg, EMPTY, ops, m + 1), ops[m].at, e) && e.at == ops[m].at
  {
    EveryRunKeepsInv(cfg, ops, m + 1, ops[0].at);
    SubmittedIsOwned(cfg, Run(cfg, EMPTY, ops, m), ops[m], Run(cfg, EMPTY, ops, m + 1), e);
  }

  /** And keeps waiting, as long as its TTL lasts and no outcome for it is drained, whatever others send. */
  lemma OwnerWaitsForTtl(cfg: Config, ops: seq<Op>, m: nat, e: Submission, n: nat)
    requires Keyed(cfg) && Clocked(ops) && m < n <= |ops| && SubmitsAt(cfg, ops, m, e)
    requires forall k | m < k < n :: Spares(cfg, ops[k], e)
    ensures Waits(cfg, Run(cfg, EMPTY, ops, n), ops[n - 1].at, e)
  {
    SubmitterWaits(cfg, ops, m, e);
    var step, kept := Stepping(cfg), (t: State, time: int) => Waits(cfg, t, time, e);
    forall k, t: State, time: int {:trigger step(t, ops[k]), kept(t, time)} | m < k < n && kept(t, time)
        && time <= ops[k].at
      ensures kept(step(t, ops[k]), ops[k].at)
    {
      StepKeepsWaiting(cfg, t, time, e, ops[k]);
    }
    KeptSince(step, kept, EMPTY, ops, m, n);
  }

  /** An outcome is recorded for a submission's client exactly when that client's key is the pending one. */
  lemma OutcomeReachesClientIff(cfg: Config, s: State, at: int, e: Submission, o: Outcome)
    requires o.requestId == Some(e.requestId) && e.requestId != []
    ensures Settle(cfg, s, at, o).recorded == s.recorded + [Recording(KeyOf(cfg, e), OutcomeResponse(e.requestId, o))]
       <==> e.requestId in s.pending && s.pending[e.requestId].key == KeyOf(cfg, e)
  {
    var expected := s.recorded + [Recording(KeyOf(cfg, e), OutcomeResponse(e.requestId, o))];
    if Awaited(s, o) {
      var recorded := s.recorded + [Recording(s.pending[e.requestId].key, OutcomeResponse(e.requestId, o))];
      assert recorded[|s.recorded|] == expected[|s.recorded|] <==> s.pending[e.requestId].key == KeyOf(cfg, e);
    } else {
      assert |expected| > |s.recorded|;
    }
  }

  /**
   * In every run, an outcome that is drained within the TTL of a submission, before any other for its request
   * id, is recorded under the key of the client that submitted the command, whatever others send meanwhile.
   */
  lemma OutcomeReachesItsClient(cfg: Config, ops: seq<Op>, m: nat, e: Submission, at: int, o: Outcome)
    requires cfg.keyOf == KeyPrinter() && Clocked(ops) && m < |ops| && SubmitsAt(cfg, ops, m, e)
    requires forall k | m < k < |ops| :: Spares(cfg, ops[k], e)
    requires at < e.at + cfg.ttlMs && o.requestId == Some(e.requestId) && e.requestId != []
    ensures var before := Purge(Run(cfg, EMPTY, ops, |ops|), at);
            var after := Settle(cfg, before, at, o);
            && after.recorded == before.recorded + [Recording(KeyOf(cfg, e), OutcomeResponse(e.requestId, o))]
            && e.requestId !in after.pending
  {
    PrintedKeysAreKeyed(cfg);
    OwnerWaitsForTtl(cfg, ops, m, e, |ops|);
    OwnerGetsOutcome(cfg, Run(cfg, EMPTY, ops, |ops|), ops[|ops| - 1].at, e, at, o);
  }

  /** What is on record under a key nobody waits with. */
  ghost predicate OnRecord(s: State, key: Texts.Text, kept: Kept) {
    && key in s.registry && s.registry[key] == kept
    && forall id | id in s.pending :: s.pending[id].key != key
  }

  lemma {:induction false} SettlingKeepsOnRecord(cfg: Config, s: State, at: int, outcomes: seq<Outcome>, m: nat, n: nat,
                                                 key: Texts.Text, kept: Kept)
    requires m <= n <= |outcomes| && OnRecord(SettleAll(cfg, s, at, outcomes, m), key, kept)
    ensures OnRecord(SettleAll(cfg, s, at, outcomes, n), key, kept)
  {
    if m < n {
      SettlingKeepsOnRecord(cfg, s, at, outcomes, m, n - 1, key, kept);
    }
  }

  /** It stays there until it expires, whatever is sent and drained. */
  lemma StepKeepsOnRecord(cfg: Config, s: State, op: Op, key: Texts.Text, kept: Kept)
    requires OnRecord(s, key, kept) && op.at < kept.expiresAt
    ensures OnRecord(Step(cfg, s, op), key, kept)
  {
    var live := Purge(s, op.at);
    assert OnRecord(live, key, kept);
    match op
    case Receive(at, next, env) => HandleReplies(cfg, s, at, next, env);
    case Drain(at, outcomes) =>
      SettlingKeepsOnRecord(cfg, live, at, outcomes, 0, |outcomes|, key, kept);
    case PurgeAt(_) =>
  }

  lemma {:induction false} SettlingKeepsPending(cfg: Config, s: State, at: int, outcomes: seq<Outcome>, n: nat)
    requires n <= |outcomes|
    ensures var t := SettleAll(cfg, s, at, outcomes, n);
            forall id | id in t.pending :: id in s.pending && t.pending[id] == s.pending[id]
  {
    if n > 0 {
      SettlingKeepsPending(cfg, s, at, outcomes, n - 1);
    }
  }

  /** The outcome of a submission, with its error code. */
  function ErrorOf(o: Outcome): Option<ErrorCode> {
    match o.failure
    case None => None
    case Some(code) => Some(ExecutionFailed(code))
  }

  /** The outcome that a waiting client gets goes on record under its key. */
  lemma OwnersOutcomeIsOnRecord(cfg: Config, live: State, e: Submission, at: int, outcomes: seq<Outcome>, j: nat)
    returns (kept: Kept)
    requires Keyed(cfg) && Covered(cfg, live.pending, live.registry) && Owns(cfg, live, e) && e.requestId != []
    requires j < |outcomes| && outcomes[j].requestId == Some(e.requestId)
    requires forall k | 0 <= k < j :: outcomes[k].requestId != Some(e.requestId)
    ensures kept.expiresAt == at + cfg.ttlMs && Tells(kept.response, outcomes[j])
    ensures OnRecord(SettleAll(cfg, live, at, outcomes, |outcomes|), KeyOf(cfg, e), kept)
  {
    OthersKeepOwner(cfg, live, e, at, outcomes, j);
    SettlingKeepsPending(cfg, live, at, outcomes, j);
    var before := SettleAll(cfg, live, at, outcomes, j);
    SettleTells(cfg, before, at, outcomes[j]);
    var after := SettleAll(cfg, live, at, outcomes, j + 1);
    kept := after.registry[KeyOf(cfg, e)];
    forall id | id in after.pending
      ensures after.pending[id].key != KeyOf(cfg, e)
    {
      assert id in live.pending && after.pending[id] == live.pending[id];
      var clientId :| live.pending[id].key == cfg.keyOf(clientId, id);
    }
    SettlingKeepsOnRecord(cfg, live, at, outcomes, j + 1, |outcomes|, KeyOf(cfg, e), kept);
  }

  lemma OutcomeGoesOnRecord(cfg: Config, ops: seq<Op>, m: nat, e: Submission, d: nat, j: nat) returns (kept: Kept)
    requires cfg.keyOf == KeyPrinter() && Clocked(ops) && m < d < |ops| && SubmitsAt(cfg, ops, m, e)
    requires (forall k | m < k < d :: Spares(cfg, ops[k], e)) && e.requestId != []
    requires ops[d].Drain? && ops[d].at < e.at + cfg.ttlMs && j < |ops[d].outcomes|
    requires ops[d].outcomes[j].requestId == Some(e.requestId)
    requires forall k | 0 <= k < j :: ops[d].outcomes[k].requestId != Some(e.requestId)
    ensures kept.expiresAt == ops[d].at + cfg.ttlMs && Tells(kept.response, ops[d].outcomes[j])
    ensures OnRecord(Run(cfg, EMPTY, ops, d + 1), KeyOf(cfg, e), kept)
  {
    PrintedKeysAreKeyed(cfg);
    OwnerWaitsForTtl(cfg, ops, m, e, d);
    var waiting := Run(cfg, EMPTY, ops, d);
    OwnedIsOnRecord(cfg, waiting, ops[d - 1].at, e, ops[d].at);
    PurgeKeeps(cfg, waiting, ops[d - 1].at, ops[d].at);
    kept := OwnersOutcomeIsOnRecord(cfg, Purge(waiting, ops[d].at), e, ops[d].at, ops[d].outcomes, j);
  }

  lemma {:induction false} StaysOnRecord(cfg: Config, ops: seq<Op>, d: nat, n: nat, key: Texts.Text, kept: Kept)
    requires Clocked(ops) && d < n <= |ops| && OnRecord(Run(cfg, EMPTY, ops, d + 1), key, kept)
    requires d + 1 < n ==> ops[n - 1].at < kept.expiresAt
    ensures OnRecord(Run(cfg, EMPTY, ops, n), key, kept)
  {
    if d + 1 < n {
      StaysOnRecord(cfg, ops, d, n - 1, key, kept);
      StepKeepsOnRecord(cfg, Run(cfg, EMPTY, ops, n - 1), ops[n - 1], key, kept);
    }
  }

  lemma RecordIsRepeated(cfg: Config, s: State, e: Submission, at: int, next: Option<int>, env: Envelope, kept: Kept)
    requires OnRecord(s, KeyOf(cfg, e), kept) && at < kept.expiresAt
    requires env.requestId == Some(e.requestId) && env.clientId == Some(e.clientId)
    requires IdOk(env.requestId, cfg.maxLength) && IdOk(env.clientId, cfg.maxLength)
    ensures var r := kept.response;
            Handle(cfg, s, at, next, env)
            == Handled(Purge(s, at), Response(r.requestId, Duplicate, r.serverStep, r.error))
  {
    assert KeyOf(cfg, e) in Purge(s, at).registry;
    HandleReplies(cfg, s, at, next, env);
  }

  /**
   * In every run, once the outcome of a submission is drained within its TTL, a resend of the client is answered
   * for another TTL with that outcome: `duplicate`, its server step, and its error if it failed.
   */
  lemma ResendRepeatsOutcome(cfg: Config, ops: seq<Op>, m: nat, e: Submission, d: nat, j: nat, n: nat, at: int,
                             next: Option<int>, env: Envelope)
    requires cfg.keyOf == KeyPrinter() && Clocked(ops) && m < d < n <= |ops| && SubmitsAt(cfg, ops, m, e)
    requires (forall k | m < k < d :: Spares(cfg, ops[k], e)) && e.requestId != []
    requires ops[d].Drain? && ops[d].at < e.at + cfg.ttlMs && j < |ops[d].outcomes|
    requires ops[d].outcomes[j].requestId == Some(e.requestId)
    requires forall k | 0 <= k < j :: ops[d].outcomes[k].requestId != Some(e.requestId)
    requires ops[n - 1].at <= at < ops[d].at + cfg.ttlMs
    requires env.requestId == Some(e.requestId) && env.clientId == Some(e.clientId)
    requires IdOk(env.requestId, cfg.maxLength) && IdOk(env.clientId, cfg.maxLength)
    ensures var s, o := Run(cfg, EMPTY, ops, n), ops[d].outcomes[j];
            Handle(cfg, s, at, next, env)
            == Handled(Purge(s, at), Response(e.requestId, Duplicate, o.serverStep, ErrorOf(o)))
  {
    var kept := OutcomeGoesOnRecord(cfg, ops, m, e, d, j);
    StaysOnRecord(cfg, ops, d, n, KeyOf(cfg, e), kept);
    RecordIsRepeated(cfg, Run(cfg, EMPTY, ops, n), e, at, next, env, kept);
  }

  lemma OwnerGetsOutcome(cfg: Config, s: State, now: int, e: Submission, at: int, o: Outcome)
    requires Waits(cfg, s, now, e) && at < e.at + cfg.ttlMs && o.requestId == Some(e.requestId) && e.requestId != []
    ensures var before := Purge(s, at);
            var after := Settle(cfg, before, at, o);
            && after.recorded == before.recorded + [Recording(KeyOf(cfg, e), OutcomeResponse(e.requestId, o))]
            && e.requestId !in after.pending
  {
    OwnedIsOnRecord(cfg, s, now, e, at);
    OutcomeReachesClientIff(cfg, Purge(s, at), at, e, o);
  }

  /** No other client can take a request id from one that waits for it. */
  lemma OthersWaitForTtl(cfg: Config, ops: seq<Op>, m: nat, e: Submission, n: nat, f: Submission)
    requires Keyed(cfg) && Clocked(ops) && m < n < |ops| && SubmitsAt(cfg, ops, m, e) && SubmitsAt(cfg, ops, n, f)
    requires f.requestId == e.requestId && f.clientId != e.clientId
    requires forall k | m < k < n :: !Mentions(ops[k], e.requestId)
    ensures f.at >= e.at + cfg.ttlMs
  {
    SubmitterWaits(cfg, ops, m, e);
    SubmitterWaits(cfg, ops, n, f);
    if f.at < e.at + cfg.ttlMs {
      assert forall k | m < k < n :: Spares(cfg, ops[k], e);
      OwnerWaitsForTtl(cfg, ops, m, e, n);
      TakenIdIsRefused(cfg, Run(cfg, EMPTY, ops, n), ops[n - 1].at, e, ops[n], f);
    }
  }

  lemma TakenIdIsRefused(cfg: Config, s: State, now: int, e: Submission, op: Op, f: Submission)
    requires Keyed(cfg) && Waits(cfg, s, now, e) && op.Receive? && op.at < e.at + cfg.ttlMs
    requires f.requestId == e.requestId && f.clientId != e.clientId
    ensures Step(cfg, s, op).submitted != s.submitted + [f]
  {
    OwnedIsOnRecord(cfg, s, now, e, op.at);
    if Step(cfg, s, op).submitted == s.submitted + [f] {
      SubmissionIsOwned(cfg, s, op.at, op.next, op.envelope, f);
    }
  }

  /**
   * So when a second client submits a command under the request id of one that waits, the first one's TTL is
   * over; and an outcome of the first command that comes later goes to the second client, and ends its wait.
   */
  lemma LateOutcomeGoesToNewOwner(cfg: Config, ops: seq<Op>, m: nat, e: Submission, n: nat, f: Submission, at: int,
                                  o: Outcome)
    requires cfg.keyOf == KeyPrinter() && Clocked(ops) && m < n < |ops|
    requires SubmitsAt(cfg, ops, m, e) && SubmitsAt(cfg, ops, n, f)
    requires f.requestId == e.requestId && f.clientId != e.clientId
    requires forall k | m < k < n :: !Mentions(ops[k], e.requestId)
    requires forall k | n < k < |ops| :: Spares(cfg, ops[k], f)
    requires at < f.at + cfg.ttlMs && o.requestId == Some(e.requestId) && e.requestId != []
    ensures f.at >= e.at + cfg.ttlMs && KeyOf(cfg, f) != KeyOf(cfg, e)
    ensures var before := Purge(Run(cfg, EMPTY, ops, |ops|), at);
            var after := Settle(cfg, before, at, o);
            && after.recorded == before.recorded + [Recording(KeyOf(cfg, f), OutcomeResponse(f.requestId, o))]
            && f.requestId !in after.pending
  {
    PrintedKeysAreKeyed(cfg);
    OthersWaitForTtl(cfg, ops, m, e, n, f);
    OutcomeReachesItsClient(cfg, ops, n, f, at, o);
  }
}

/** The registry and the server over it, changing in place. */
module TransportServers {
  import opened Wrappers
  import opened Texts
  import T = Transport

  class InMemoryIdempotencyRegistry {
    var entries: map<Text, T.Kept>

    constructor ()
      ensures entries == map[]
    {
      entries := map[];
    }

    method Get(key: Text) returns (r: Option<T.Response>)
      ensures r == if key in entries then Some(entries[key].response) else None
    {
      r := if key in entries then Some(entries[key].response) else None;
    }

    method Record(key: Text, response: T.Response, expiresAt: int)
      modifies this
      ensures entries == old(entries)[key := T.Kept(response, expiresAt)]
    {
      entries := entries[key := T.Kept(response, expiresAt)];
    }

    method PurgeExpired(now: int)
      modifies this
      ensures entries == T.Unexpired(old(entries), now)
    {
      var keys := entries.Keys;
      while keys != {}
        invariant keys <= old(entries).Keys
        invariant entries == map key | key in old(entries) && (key in keys || old(entries)[key].expiresAt > now) ::
                               old(entries)[key]
        decreases |keys|
      {
        var key :| key in keys;
        if entries[key].expiresAt <= now {
          entries := entries - {key};
        }
        keys := keys - {key};
      }
    }
  }

  class CommandTransportServer {
    const cfg: T.Config
    const registry: InMemoryIdempotencyRegistry
    var pendingKeys: map<Text, T.Pending>
    /** The commands handed to the queue so far. */
    var enqueued: seq<T.Submission>
    ghost var recorded: seq<T.Recording>

    ghost function State(): T.State
      reads this, registry
    {
      T.State(registry.entries, pendingKeys, recorded, enqueued)
    }

    constructor (registry: InMemoryIdempotencyRegistry, idempotencyTtlMs: Option<real>,
                 maxIdentifierLength: Option<real>)
      requires registry.entries == map[]
      ensures this.registry == registry && State() == T.EMPTY && cfg.keyOf == T.KeyPrinter()
      ensures cfg.ttlMs == T.Setting(idempotencyTtlMs, T.DEFAULT_TTL_MS)
      ensures cfg.maxLength == T.Setting(maxIdentifierLength, T.DEFAULT_MAX_LENGTH)
    {
      this.cfg := T.Config(T.Setting(idempotencyTtlMs, T.DEFAULT_TTL_MS),
                           T.Setting(maxIdentifierLength, T.DEFAULT_MAX_LENGTH), T.KeyPrinter());
      this.registry := registry;
      pendingKeys, enqueued, recorded := map[], [], [];
    }

    method PurgeExpired(atTime: int)
      modifies this, registry
      ensures State() == T.Purge(old(State()), atTime)
    {
      registry.PurgeExpired(atTime);
      ghost var start := pendingKeys;
      var ids := pendingKeys.Keys;
      while ids != {}
        invariant ids <= start.Keys
        invariant pendingKeys == map id | id in start && (id in ids || start[id].expiresAt > atTime) :: start[id]
        invariant registry.entries == T.Unexpired(old(registry.entries), atTime)
        invariant recorded == old(recorded) && enqueued == old(enqueued)
        decreases |ids|
      {
        var id :| id in ids;
        if pendingKeys[id].expiresAt <= atTime {
          pendingKeys := pendingKeys - {id};
        }
        ids := ids - {id};
      }
    }

    method Record(key: Text, response: T.Response, expiresAt: int)
      modifies registry, `recorded
      ensures State() == T.Record(old(State()), key, response, expiresAt)
    {
      registry.Record(key, response, expiresAt);
      recorded := recorded + [T.Recording(key, response)];
    }

    /** Records a response and waits under its key. */
    method RecordAndAwait(key: Text, requestId: Text, response: T.Response, expiresAt: int)
      modifies this, registry
      ensures State() == T.Await(T.Record(old(State()), key, response, expiresAt), requestId, key, expiresAt)
    {
      Record(key, response, expiresAt);
      pendingKeys := pendingKeys[requestId := T.Pending(key, expiresAt)];
    }

    method HandleNew(atTime: int, next: Option<int>, envelope: T.Envelope, clientId: Text, requestId: Text)
      returns (response: T.Response)
      modifies this, registry
      ensures T.Handled(State(), response)
              == T.HandleNew(cfg, old(State()), atTime, next, envelope, clientId, requestId)
    {
      var key, expiresAt := cfg.keyOf(clientId, requestId), atTime + cfg.ttlMs;
      if requestId in pendingKeys && pendingKeys[requestId].key != key {
        response := T.Reject(requestId, next, T.RequestIdInUse);
        Record(key, response, expiresAt);
        return;
      }
      var problem := T.Problem(cfg, envelope, requestId);
      if problem.Some? {
        response := T.Reject(requestId, next, problem.value);
        RecordAndAwait(key, requestId, response, expiresAt);
        return;
      }
      var submission := T.SubmissionOf(cfg, atTime, next, envelope, clientId, requestId);
      enqueued := enqueued + [submission];
      response := T.Response(requestId, T.Accepted, submission.command.step, None);
      RecordAndAwait(key, requestId, response, expiresAt);
    }

    method HandleEnvelope(atTime: int, next: Option<int>, envelope: T.Envelope) returns (response: T.Response)
      modifies this, registry
      ensures T.Handled(State(), response) == T.Handle(cfg, old(State()), atTime, next, envelope)
      ensures exists live :: T.IsAlive(old(State()), atTime, live)
                             && T.Replied(cfg, live, atTime, next, envelope, State(), response)
    {
      T.PurgedIsAlive(State(), atTime);
      T.HandleReplies(cfg, State(), atTime, next, envelope);
      PurgeExpired(atTime);
      var requestId := T.NormalizeIdentifier(envelope.requestId, cfg.maxLength);
      if requestId.Err? {
        return T.Reject(if envelope.requestId.Some? then envelope.requestId.value else [], next, requestId.error);
      }
      var clientId := T.NormalizeIdentifier(envelope.clientId, cfg.maxLength);
      if clientId.Err? {
        return T.Reject(requestId.value, next, clientId.error);
      }
      var cached := registry.Get(cfg.keyOf(clientId.value, requestId.value));
      if cached.Some? {
        return T.ToDuplicate(cached.value);
      }
      response := HandleNew(atTime, next, envelope, clientId.value, requestId.value);
    }

    /** Answers what was executed since the last drain, each outcome under the key that waits for it. */
    method DrainOutcomeResponses(atTime: int, outcomes: seq<T.Outcome>) returns (responses: seq<T.Response>)
      modifies this, registry
      ensures State() == T.Step(cfg, old(State()), T.Drain(atTime, outcomes))
      ensures exists live :: T.IsAlive(old(State()), atTime, live)
                             && T.Drained(cfg, live, atTime, outcomes, State(), responses)
    {
      T.PurgedIsAlive(State(), atTime);
      ghost var live := T.Purge(State(), atTime);
      ghost var told := T.DrainTells(cfg, live, atTime, outcomes, |outcomes|);
      responses := DrainAll(atTime, outcomes);
    }

    method DrainAll(atTime: int, outcomes: seq<T.Outcome>) returns (responses: seq<T.Response>)
      modifies this, registry
      ensures State() == T.SettleAll(cfg, T.Purge(old(State()), atTime), atTime, outcomes, |outcomes|)
      ensures |old(recorded)| <= |recorded| && recorded[..|old(recorded)|] == old(recorded)
      ensures |responses| == |recorded| - |old(recorded)|
      ensures forall k | 0 <= k < |responses| :: responses[k] == recorded[|old(recorded)| + k].response
    {
      PurgeExpired(atTime);
      ghost var start := State();
      responses := [];
      for i := 0 to |outcomes|
        invariant State() == T.SettleAll(cfg, start, atTime, outcomes, i)
        invariant |old(recorded)| <= |recorded| && recorded[..|old(recorded)|] == old(recorded)
        invariant |responses| == |recorded| - |old(recorded)|
        invariant forall k | 0 <= k < |responses| :: responses[k] == recorded[|old(recorded)| + k].response
      {
        var o := outcomes[i];
        if o.requestId.Some? && o.requestId.value != [] && o.requestId.value in pendingKeys {
          var id := o.requestId.value;
          var response := T.OutcomeResponse(id, o);
          Record(pendingKeys[id].key, response, atTime + cfg.ttlMs);
          pendingKeys := pendingKeys - {id};
          responses := responses + [response];
        }
      }
    }
  }
}
