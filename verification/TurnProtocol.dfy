/** The turn protocol: any number of /turn and /turn/stream requests, interleaved statement by
    statement, over the shared key table and the transcripts
    (backend/app/features/conversation/router.py, turn_service.py, persist.py and
    backend/app/features/idempotency/service.py).

    Time advances only while every live holder of a row is within the stale window: the
    assumption written beside STALE_CLAIM_SECONDS. A crashed request holds nothing. */
module TurnProtocol {
  import opened Options
  import opened IdempotencyTable

  datatype Role = User | Assistant
  datatype Message = Message(role: Role, content: string)

  /** The last n messages; n == 0 means no limit. */
  function Last(n: nat, xs: seq<Message>): seq<Message> {
    if n > 0 && |xs| > n then xs[|xs| - n..] else xs
  }

  lemma LastIsTail(n: nat, xs: seq<Message>)
    ensures |Last(n, xs)| == if 0 < n < |xs| then n else |xs|
    ensures xs == xs[..|xs| - |Last(n, xs)|] + Last(n, xs)
  {
  }

  /** transcript_max_messages, history_max_messages, and who owns which session. */
  datatype Config = Config(maxTranscript: nat, maxHistory: nat, owner: map<int, int>)

  datatype Request = Request(user: int, session: int, key: Option<string>, streaming: bool, text: string)

  function LockKey(r: Request): Key { TurnLock(r.user, r.session) }

  function ClientKey(r: Request): Key
    requires r.key.Some?
  {
    Client(r.user, r.key.value)
  }

  /** Two requests contend for a lock exactly when they are for one user's one session, and for a key
      exactly when one user sent both with it; no key is ever taken for a lock. */
  lemma WhatContends(r: Request, r': Request)
    ensures LockKey(r) == LockKey(r') <==> r.user == r'.user && r.session == r'.session
    ensures r.key.Some? && r'.key.Some? ==>
              && (ClientKey(r) == ClientKey(r') <==> r.user == r'.user && r.key == r'.key)
              && ClientKey(r) != LockKey(r')
  {
  }

  /** Where a request stands. Finishing has done its work and still has to complete its key
      and free its lock; Failing has done nothing and still has to release both; Abandoning
      frees its lock and leaves its key pending. */
  datatype Pc =
    | Arrived
    | Claiming
    | Rereading
    | Locking
    | Preparing
    | Thinking(base: seq<Message>, window: seq<Message>)
    | Persisting(base: seq<Message>, reply: string, ok: bool)
    | Finishing(reply: string, ok: bool, lock: bool, key: bool)
    | Failing(lock: bool, key: bool)
    | Abandoning(answer: Option<string>)
    | Done(answer: Option<string>)
    | Crashed

  predicate HoldsLock(pc: Pc) {
    match pc
    case Preparing => true
    case Thinking(_, _) => true
    case Persisting(_, _, _) => true
    case Finishing(_, _, lock, _) => lock
    case Failing(lock, _) => lock
    case Abandoning(_) => true
    case _ => false
  }

  /** Owns its idempotency key, when it has one. */
  predicate HoldsKey(pc: Pc) {
    match pc
    case Locking => true
    case Preparing => true
    case Thinking(_, _) => true
    case Persisting(_, _, _) => true
    case Finishing(_, _, _, key) => key
    case Failing(_, key) => key
    case _ => false
  }

  datatype Proc = Proc(req: Request, pc: Pc, keyAt: int, lockAt: int)

  /** The database and the requests; then what the proofs remember: who claimed each row
      last, the unbounded commit-ordered history of each session, the replies committed under
      each key, the keys whose completion failed after the work was done, the keys under which a
      reply was delivered but could not be saved, and the keys purged with their response. */
  datatype State = State(
    now: int, rows: Rows, ended: set<int>, transcripts: map<int, seq<Message>>, procs: map<nat, Proc>,
    holder: map<Key, nat>, history: map<int, seq<Message>>, committed: map<Key, seq<string>>,
    uncompleted: set<Key>, unsaved: set<Key>, forgotten: set<Key>)

  function Transcript(s: State, session: int): seq<Message> {
    if session in s.transcripts then s.transcripts[session] else []
  }

  function History(s: State, session: int): seq<Message> {
    if session in s.history then s.history[session] else []
  }

  function Committed(s: State, k: Key): seq<string> {
    if k in s.committed then s.committed[k] else []
  }

  datatype Action =
    | Tick(dt: nat)
    | Arrive(id: nat, req: Request)
    | EndSession(session: int)
    | Purge
    | LookUp(id: nat)
    | ClaimKey(id: nat)
    | Reread(id: nat)
    | AcquireLock(id: nat)
    | Prepare(id: nat, fails: bool)
    | LlmReplies(id: nat, reply: string, ok: bool)
    | LlmFails(id: nat)
    | Disconnect(id: nat)
    | Persist(id: nat, meterFails: bool)
    | PersistFails(id: nat)
    | CompleteKey(id: nat, fails: bool)
    | ReleaseLock(id: nat, fails: bool)
    | ReleaseKey(id: nat, fails: bool)
    | Crash(id: nat)

  /** A step made by a request, as opposed to the clock, the purge and the outside world. */
  predicate ByRequest(a: Action) { !a.Tick? && !a.Arrive? && !a.EndSession? && !a.Purge? }

  predicate WithinWindow(s: State, now: int) {
    forall id :: id in s.procs ==>
      var p := s.procs[id];
      && (HoldsLock(p.pc) ==> now - p.lockAt <= STALE_CLAIM_SECONDS)
      && (HoldsKey(p.pc) && p.req.key.Some? ==> now - p.keyAt <= STALE_CLAIM_SECONDS)
  }

  predicate Enabled(s: State, a: Action) {
    match a
    case Tick(dt) => WithinWindow(s, s.now + dt)
    case Arrive(id, req) => id !in s.procs
    case EndSession(_) => true
    case Purge => true
    case LookUp(id) => id in s.procs && s.procs[id].pc.Arrived?
    case ClaimKey(id) => id in s.procs && s.procs[id].pc.Claiming? && s.procs[id].req.key.Some?
    case Reread(id) => id in s.procs && s.procs[id].pc.Rereading? && s.procs[id].req.key.Some?
    case AcquireLock(id) => id in s.procs && s.procs[id].pc.Locking?
    case Prepare(id, _) => id in s.procs && s.procs[id].pc.Preparing?
    case LlmReplies(id, reply, ok) => id in s.procs && s.procs[id].pc.Thinking? && (ok || s.procs[id].req.streaming)
    case LlmFails(id) => id in s.procs && s.procs[id].pc.Thinking?
    case Disconnect(id) =>
      id in s.procs && (s.procs[id].pc.Preparing? || s.procs[id].pc.Thinking? || s.procs[id].pc.Persisting?)
    case Persist(id, _) => id in s.procs && s.procs[id].pc.Persisting?
    case PersistFails(id) => id in s.procs && s.procs[id].pc.Persisting?
    case CompleteKey(id, _) =>
      id in s.procs && s.procs[id].pc.Finishing? && s.procs[id].pc.key && s.procs[id].req.key.Some?
    case ReleaseLock(id, _) =>
      && id in s.procs
      && HoldsLock(s.procs[id].pc)
      && (s.procs[id].pc.Finishing? || s.procs[id].pc.Failing? || s.procs[id].pc.Abandoning?)
    case ReleaseKey(id, _) =>
      id in s.procs && s.procs[id].pc.Failing? && s.procs[id].pc.key && s.procs[id].req.key.Some?
    case Crash(id) => id in s.procs && !s.procs[id].pc.Done?
  }

  /** The answer is sent once nothing is left to complete or release. */
  function Settle(pc: Pc): Pc {
    if pc.Finishing? && !pc.lock && !pc.key then Done(if pc.ok then Some(pc.reply) else None)
    else if pc.Failing? && !pc.lock && !pc.key then Done(None)
    else pc
  }

  function KeyDone(pc: Pc): Pc {
    match pc
    case Failing(lock, _) => Failing(lock, false)
    case _ => pc
  }

  /** Completing the key of a finished request. When that fails, the exception leaves /turn and no
      answer is sent; a stream has been delivered by then. */
  function Completed(pc: Pc, fails: bool, streaming: bool): Pc {
    match pc
    case Finishing(reply, ok, lock, _) => Finishing(reply, ok && (!fails || streaming), lock, false)
    case _ => pc
  }

  function LockDone(pc: Pc): Pc {
    match pc
    case Finishing(reply, ok, _, key) => Finishing(reply, ok, false, key)
    case Failing(_, key) => Failing(false, key)
    case Abandoning(answer) => Done(answer)
    case _ => pc
  }

  function Goto(s: State, id: nat, pc: Pc): State
    requires id in s.procs
  {
    s.(procs := s.procs[id := s.procs[id].(pc := Settle(pc))])
  }

  function Uncompleted(s: State, r: Request): State {
    if r.key.Some? then s.(uncompleted := s.uncompleted + {ClientKey(r)}) else s
  }

  function Unsaved(s: State, r: Request): State {
    if r.key.Some? then s.(unsaved := s.unsaved + {ClientKey(r)}) else s
  }

  function PurgeTx(s: State): State {
    var gone := set k | k in s.rows && Purged(s.rows[k], s.now) && s.rows[k].response.Some?;
    s.(rows := AfterPurge(s.rows, s.now), forgotten := s.forgotten + gone)
  }

  /** What the table says of k has always been true: no completion of k failed, and k was never
      purged with its response. */
  predicate Remembered(s: State, k: Key) { k !in s.uncompleted && k !in s.forgotten }

  /** persist_turn: append the pair, then keep the last maxTranscript messages. */
  function NewTurns(c: Config, base: seq<Message>, text: string, reply: string): seq<Message> {
    Last(c.maxTranscript, base + [Message(User, text), Message(Assistant, reply)])
  }

  /** The messages sent to the LLM: the window of the transcript, then the new text. */
  function PromptWindow(c: Config, base: seq<Message>, text: string): seq<Message> {
    Last(c.maxHistory, base) + [Message(User, text)]
  }

  /** The transaction of one turn. The commit is left to the metering, which returns without one
      when it finds the session ended, and the transcript write is then lost with the
      transaction; a metering that fails leaves the transcript to be committed alone. */
  function PersistTx(c: Config, s: State, r: Request, base: seq<Message>, reply: string, meterFails: bool): State {
    if r.session in s.ended && !meterFails then s
    else
      var pair := [Message(User, r.text), Message(Assistant, reply)];
      var s1 := s.(transcripts := s.transcripts[r.session := NewTurns(c, base, r.text, reply)],
                   history := s.history[r.session := History(s, r.session) + pair]);
      if r.key.Some? then s1.(committed := s.committed[ClientKey(r) := Committed(s, ClientKey(r)) + [reply]]) else s1
  }

  function ClaimRow(s: State, k: Key, id: nat): State {
    s.(rows := s.rows[k := Row(None, s.now)], holder := s.holder[k := id])
  }

  function Response(s: State, k: Key): Option<string> {
    if k in s.rows then s.rows[k].response else None
  }

  /** Claiming k for request id, and the result when somebody else has it. */
  function ClaimTx(s: State, k: Key, id: nat, p: Proc): State {
    if Claimable(s.rows, k, StaleBefore(s.now)) then ClaimRow(s, k, id).(procs := s.procs[id := p]) else s
  }

  /** What a step does besides moving on the request that makes it. */
  function Effect(c: Config, s: State, a: Action): (s': State)
    requires Enabled(s, a)
    ensures s'.now == s.now && forall id :: id in s.procs ==> id in s'.procs && s'.procs[id].req == s.procs[id].req
  {
    match a
    case Purge => PurgeTx(s)
    case ClaimKey(id) => ClaimTx(s, ClientKey(s.procs[id].req), id, s.procs[id].(keyAt := s.now))
    case AcquireLock(id) => ClaimTx(s, LockKey(s.procs[id].req), id, s.procs[id].(lockAt := s.now))
    case Persist(id, meterFails) =>
      var p := s.procs[id];
      PersistTx(c, s, p.req, p.pc.base, p.pc.reply, meterFails)
    case PersistFails(id) =>
      var p := s.procs[id];
      if p.req.streaming && p.pc.ok then Unsaved(s, p.req) else s
    case CompleteKey(id, fails) =>
      var p := s.procs[id];
      if fails then Uncompleted(s, p.req) else s.(rows := AfterComplete(s.rows, ClientKey(p.req), p.pc.reply))
    case ReleaseLock(id, fails) => if fails then s else s.(rows := s.rows - {LockKey(s.procs[id].req)})
    case ReleaseKey(id, fails) => if fails then s else s.(rows := s.rows - {ClientKey(s.procs[id].req)})
    case Crash(id) =>
      var p := s.procs[id];
      if p.pc.Finishing? && p.pc.key then Uncompleted(s, p.req) else s
    case _ => s
  }

  /** Where a step takes the request that makes it. */
  function NextPc(c: Config, s: State, a: Action): Pc
    requires Enabled(s, a) && ByRequest(a)
  {
    var p := s.procs[a.id];
    var r := p.req;
    match a
    case LookUp(_) =>
      if r.key.Some? && Response(s, ClientKey(r)).Some? then Done(Response(s, ClientKey(r))) else Claiming
    case ClaimKey(_) => if Claimable(s.rows, ClientKey(r), StaleBefore(s.now)) then Locking else Rereading
    case Reread(_) => Done(Response(s, ClientKey(r)))
    case AcquireLock(_) =>
      if Claimable(s.rows, LockKey(r), StaleBefore(s.now)) then Preparing else Failing(false, r.key.Some?)
    case Prepare(_, fails) =>
      if !fails && r.session in c.owner && c.owner[r.session] == r.user && r.session !in s.ended then
        var base := Transcript(s, r.session);
        Thinking(base, PromptWindow(c, base, r.text))
      else Failing(true, r.key.Some?)
    case LlmReplies(_, reply, ok) => Persisting(p.pc.base, reply, ok)
    case LlmFails(_) => Failing(true, r.key.Some?)
    case Disconnect(_) => if r.streaming && p.pc.Preparing? then Failing(true, r.key.Some?) else Abandoning(None)
    case Persist(_, _) => Finishing(p.pc.reply, p.pc.ok, true, r.key.Some?)
    case PersistFails(_) =>
      if r.streaming && p.pc.ok then Abandoning(Some(p.pc.reply)) else Failing(true, r.key.Some?)
    case CompleteKey(_, fails) => Completed(p.pc, fails, r.streaming)
    case ReleaseLock(_, _) => LockDone(p.pc)
    case ReleaseKey(_, _) => KeyDone(p.pc)
    case Crash(_) => Crashed
  }

  function Apply(c: Config, s: State, a: Action): State
    requires Enabled(s, a)
  {
    match a
    case Tick(dt) => s.(now := s.now + dt)
    case Arrive(id, req) => s.(procs := s.procs[id := Proc(req, if req.key.Some? then Arrived else Locking, 0, 0)])
    case EndSession(session) => s.(ended := s.ended + {session})
    case Purge => Effect(c, s, a)
    case _ => Goto(Effect(c, s, a), a.id, NextPc(c, s, a))
  }

  const Initial := State(0, map[], {}, map[], map[], map[], map[], map[], {}, {}, {})

  /** A run: each action is enabled where it is taken. */
  ghost predicate IsRun(c: Config, s: State, actions: seq<Action>, s': State)
    decreases |actions|
  {
    if actions == [] then s == s'
    else Enabled(s, actions[0]) && IsRun(c, Apply(c, s, actions[0]), actions[1..], s')
  }

  /** Some run leads from s to s'. */
  ghost predicate Reaches(c: Config, s: State, s': State) {
    exists actions :: IsRun(c, s, actions, s')
  }

  predicate Unpurged(actions: seq<Action>) {
    forall i :: 0 <= i < |actions| ==> !actions[i].Purge?
  }

  /** Some run without a purge leads from s to s'. */
  ghost predicate ReachesUnpurged(c: Config, s: State, s': State) {
    exists actions :: IsRun(c, s, actions, s') && Unpurged(actions)
  }

  ghost predicate Reachable(c: Config, s: State) { Reaches(c, Initial, s) }
}
