/**
 PutVaultCrypto as its three statements, SELECT, INSERT ... ON CONFLICT DO NOTHING and a second
 SELECT, run by any number of callers in any interleaving
 (internal/skeeper/repository/postgres/postgres.go). The calls are linearizable to an atomic
 write-once register per user.
 */
module VaultRegister {
  import opened Basics
  import opened Crypto

  type Register = map<UserId, Pair>

  datatype Reply = Stored | Conflict | BadSizes | Failed

  type CallerId = nat

  // ----- The atomic register -----

  /** A put carries the call it belongs to. */
  datatype Event =
    | PutEvent(caller: CallerId, user: UserId, pair: Pair, reply: Reply)
    | GetEvent(user: UserId, found: Option<Pair>)

  function Lookup(reg: Register, user: UserId): Option<Pair> {
    if user in reg then Some(reg[user]) else None
  }

  function Judge(existing: Pair, pair: Pair): Reply {
    if existing == pair then Stored else Conflict
  }

  /** Write once: an absent row is written; a present one is only compared. */
  function AtomicPut(reg: Register, user: UserId, pair: Pair): (Register, Reply) {
    if user in reg then (reg, Judge(reg[user], pair)) else (reg[user := pair], Stored)
  }

  function Apply(reg: Register, ev: Event): Register {
    match ev
    case PutEvent(_, u, p, _) => AtomicPut(reg, u, p).0
    case GetEvent(_, _) => reg
  }

  function Replay(log: seq<Event>): Register {
    if log == [] then map[] else Apply(Replay(log[..|log| - 1]), log[|log| - 1])
  }

  /** The event has the result the atomic register gives. */
  predicate Correct(reg: Register, ev: Event) {
    match ev
    case PutEvent(_, u, p, reply) => reply == AtomicPut(reg, u, p).1
    case GetEvent(u, found) => found == Lookup(reg, u)
  }

  ghost predicate Legal(log: seq<Event>) {
    forall i | 0 <= i < |log| :: Correct(Replay(log[..i]), log[i])
  }

  // ----- The interleaved statements -----

  /** `at` is the position in the log at which a call that answered took effect. */
  datatype Progress = Started | SawNothing | LostRace | Returned(reply: Reply, at: nat)

  /** One call of PutVaultCrypto; `invoked` is the length of the log when it began. */
  datatype Call = Call(user: UserId, pair: Pair, invoked: nat, progress: Progress)

  /** `late` holds the calls whose caller gave up while its INSERT was on its way. */
  datatype State = State(rows: Register, calls: map<CallerId, Call>, log: seq<Event>, late: set<CallerId>)

  const INITIAL: State := State(map[], map[], [], {})

  datatype Step =
    | Invoke(caller: CallerId, user: UserId, pair: Pair)
    | Select(caller: CallerId)
    | Insert(caller: CallerId, replyLost: bool)
    | Reselect(caller: CallerId)
    | Break(caller: CallerId)
    | Arrive(caller: CallerId)
    | Get(user: UserId)

  predicate At(s: State, c: CallerId, p: Progress) {
    c in s.calls && s.calls[c].progress == p
  }

  ghost predicate Enabled(s: State, step: Step) {
    match step
    case Invoke(c, _, _) => c !in s.calls
    case Select(c) => At(s, c, Started)
    case Insert(c, _) => At(s, c, SawNothing)
    case Reselect(c) => At(s, c, LostRace)
    case Break(c) => c in s.calls && !s.calls[c].progress.Returned?
    case Arrive(c) => c in s.late && c in s.calls
    case Get(_) => true
  }

  function SetProgress(s: State, c: CallerId, p: Progress): State
    requires c in s.calls
  {
    s.(calls := s.calls[c := s.calls[c].(progress := p)])
  }

  /** The call returns `reply`, taking effect now. */
  function Answer(s: State, c: CallerId, reply: Reply): State
    requires c in s.calls
  {
    SetProgress(s, c, Returned(reply, |s.log|)).(log := s.log + [PutEvent(c, s.calls[c].user, s.calls[c].pair, reply)])
  }

  /** A SELECT by the caller: compare when there is a row, otherwise go on to `missing`. */
  function Read(s: State, c: CallerId, missing: Progress): State
    requires c in s.calls
  {
    var call := s.calls[c];
    if call.user in s.rows then Answer(s, c, Judge(s.rows[call.user], call.pair)) else SetProgress(s, c, missing)
  }

  ghost function Next(s: State, step: Step): State
    requires Enabled(s, step)
  {
    match step
    case Invoke(c, u, p) =>
      var progress := if SizesOk(p) then Started else Returned(BadSizes, 0);
      s.(calls := s.calls[c := Call(u, p, |s.log|, progress)])
    case Select(c) => Read(s, c, SawNothing)
    case Insert(c, replyLost) =>
      var call := s.calls[c];
      if call.user in s.rows then SetProgress(s, c, LostRace)
      else
        var done := Answer(s, c, Stored).(rows := s.rows[call.user := call.pair]);
        if replyLost then SetProgress(done, c, Returned(Failed, 0)) else done
    case Reselect(c) => Read(s, c, Returned(Failed, 0))
    case Break(c) =>
      var broken := SetProgress(s, c, Returned(Failed, 0));
      if s.calls[c].progress.SawNothing? then broken.(late := s.late + {c}) else broken
    case Arrive(c) =>
      var call := s.calls[c];
      if call.user in s.rows then s.(late := s.late - {c})
      else
        s.(rows := s.rows[call.user := call.pair],
           log := s.log + [PutEvent(c, call.user, call.pair, Stored)],
           late := s.late - {c})
    case Get(u) => s.(log := s.log + [GetEvent(u, Lookup(s.rows, u))])
  }

  ghost predicate Run(states: seq<State>, steps: seq<Step>) {
    && |states| == |steps| + 1
    && states[0] == INITIAL
    && forall i | 0 <= i < |steps| :: Enabled(states[i], steps[i]) && states[i + 1] == Next(states[i], steps[i])
  }

  // ----- Linearizability -----

  predicate Answered(call: Call) {
    call.progress.Returned? && (call.progress.reply == Stored || call.progress.reply == Conflict)
  }

  /** An answered call sits in the log, with its own answer, no earlier than it was invoked. */
  ghost predicate CallOk(s: State, c: CallerId, call: Call) {
    && call.invoked <= |s.log|
    && (call.progress.LostRace? ==> call.user in s.rows)
    && (Answered(call) ==>
          && call.invoked <= call.progress.at < |s.log|
          && s.log[call.progress.at] == PutEvent(c, call.user, call.pair, call.progress.reply)
          && call.user in s.rows
          && call.progress.reply == Judge(s.rows[call.user], call.pair))
  }

  /** A put in the history is that of a call begun by then, which is over, with no INSERT on its way. */
  ghost predicate EventOk(s: State, k: nat, ev: Event) {
    ev.PutEvent? ==>
      && ev.caller in s.calls && !IsOpen(s, ev.caller)
      && var call := s.calls[ev.caller];
         call.user == ev.user && call.pair == ev.pair && call.invoked <= k
  }

  /** The call can still take effect. */
  predicate IsOpen(s: State, c: CallerId) {
    c in s.calls && (!s.calls[c].progress.Returned? || c in s.late)
  }

  /** No call is in the history twice. */
  ghost predicate OncePerCall(log: seq<Event>) {
    forall j, k | 0 <= j < k < |log| && log[j].PutEvent? && log[k].PutEvent? :: log[j].caller != log[k].caller
  }

  ghost predicate EventsOk(s: State) {
    && OncePerCall(s.log)
    && (forall k | 0 <= k < |s.log| :: EventOk(s, k, s.log[k]))
    && (forall c | c in s.late :: c in s.calls && s.calls[c].progress == Returned(Failed, 0))
  }

  ghost predicate Inv(s: State) {
    && Legal(s.log)
    && Replay(s.log) == s.rows
    && EventsOk(s)
    && forall c | c in s.calls :: CallOk(s, c, s.calls[c])
  }

  lemma AppendKeepsLegal(log: seq<Event>, ev: Event)
    requires Legal(log) && Correct(Replay(log), ev)
    ensures Legal(log + [ev]) && Replay(log + [ev]) == Apply(Replay(log), ev)
  {
    var all := log + [ev];
    assert all[..|log|] == log;
    forall i | 0 <= i < |all|
      ensures Correct(Replay(all[..i]), all[i])
    {
      if i < |log| {
        assert all[..i] == log[..i];
      }
    }
  }

  /**
   Log and rows move together, by at most one event. It is correct for the rows it meets, and a put
   is that of a call that was still open and is now over.
   */
  lemma StepAddsOneEvent(s: State, step: Step) returns (ev: Event)
    requires Inv(s) && Enabled(s, step)
    ensures var s' := Next(s, step);
            || (s'.log == s.log && s'.rows == s.rows)
            || (&& s'.log == s.log + [ev] && s'.rows == Apply(s.rows, ev) && Correct(s.rows, ev)
                && (ev.PutEvent? ==> IsOpen(s, ev.caller) && EventOk(s', |s.log|, ev)))
  {
    if step.Get? {
      ev := GetEvent(step.user, Lookup(s.rows, step.user));
    } else if step.Invoke? {
      ev := PutEvent(step.caller, step.user, step.pair, Failed);
    } else {
      var call := s.calls[step.caller];
      assert CallOk(s, step.caller, call);
      ev := PutEvent(step.caller, call.user, call.pair, AtomicPut(s.rows, call.user, call.pair).1);
    }
  }

  lemma StepKeepsHistory(s: State, step: Step)
    requires Inv(s) && Enabled(s, step)
    ensures var s' := Next(s, step); Legal(s'.log) && Replay(s'.log) == s'.rows && Later(s, s')
  {
    var ev := StepAddsOneEvent(s, step);
    if Next(s, step).log != s.log {
      AppendKeepsLegal(s.log, ev);
    }
  }

  lemma StepKeepsEvents(s: State, step: Step)
    requires Inv(s) && Enabled(s, step)
    ensures EventsOk(Next(s, step))
  {
    var s' := Next(s, step);
    var ev := StepAddsOneEvent(s, step);
    StepKeepsCalls(s, step);
    forall k | 0 <= k < |s'.log|
      ensures EventOk(s', k, s'.log[k])
    {
      if k < |s.log| {
        assert EventOk(s, k, s.log[k]);
      }
    }
    forall j, k | 0 <= j < k < |s'.log| && s'.log[j].PutEvent? && s'.log[k].PutEvent?
      ensures s'.log[j].caller != s'.log[k].caller
    {
      assert EventOk(s, j, s.log[j]);
    }
  }

  ghost predicate Later(s: State, s': State) {
    && s.log <= s'.log
    && forall u | u in s.rows :: u in s'.rows && s'.rows[u] == s.rows[u]
  }

  lemma CallOkLater(s: State, s': State, c: CallerId, call: Call)
    requires CallOk(s, c, call) && Later(s, s')
    ensures CallOk(s', c, call)
  {
  }

  lemma StepKeepsInv(s: State, step: Step)
    requires Inv(s) && Enabled(s, step)
    ensures Inv(Next(s, step)) && Later(s, Next(s, step))
  {
    var s' := Next(s, step);
    StepKeepsHistory(s, step);
    StepKeepsEvents(s, step);
    forall c | c in s'.calls
      ensures CallOk(s', c, s'.calls[c])
    {
      if c in s.calls && s'.calls[c] == s.calls[c] {
        CallOkLater(s, s', c, s.calls[c]);
      } else {
        CallerIsOk(s, step, c);
      }
    }
  }

  /** The call that takes the step is still in order afterwards. */
  lemma CallerIsOk(s: State, step: Step, c: CallerId)
    requires Inv(s) && Enabled(s, step) && !step.Get? && c == step.caller
    ensures c in Next(s, step).calls && CallOk(Next(s, step), c, Next(s, step).calls[c])
  {
    if c in s.calls {
      assert CallOk(s, c, s.calls[c]);
    }
  }

  /** Calls are never forgotten, and a returned call never changes. */
  ghost predicate CallsStay(s: State, s': State) {
    forall c | c in s.calls :: c in s'.calls && CallStays(s.calls[c], s'.calls[c])
  }

  predicate CallStays(call: Call, call': Call) {
    && call'.user == call.user && call'.pair == call.pair && call'.invoked == call.invoked
    && (call.progress.Returned? ==> call' == call)
  }

  lemma StepKeepsCalls(s: State, step: Step)
    requires Enabled(s, step)
    ensures CallsStay(s, Next(s, step))
  {
  }

  lemma {:induction false} RunKeepsInv(states: seq<State>, steps: seq<Step>, i: nat)
    requires Run(states, steps) && i < |states|
    ensures Inv(states[i])
  {
    if i == 0 {
    } else {
      RunKeepsInv(states, steps, i - 1);
      StepKeepsInv(states[i - 1], steps[i - 1]);
    }
  }

  ghost predicate Onward(s: State, s': State) {
    Later(s, s') && CallsStay(s, s')
  }

  lemma StepGoesOn(s: State, step: Step)
    requires Inv(s) && Enabled(s, step)
    ensures Onward(s, Next(s, step))
  {
    StepKeepsInv(s, step);
    StepKeepsCalls(s, step);
  }

  lemma RunGoesOn(states: seq<State>, steps: seq<Step>, j: nat)
    requires Run(states, steps) && j < |steps|
    ensures Onward(states[j], states[j + 1])
  {
    RunKeepsInv(states, steps, j);
    StepGoesOn(states[j], steps[j]);
  }

  lemma OnwardTransitive(a: State, b: State, c: State)
    requires Onward(a, b) && Onward(b, c)
    ensures Onward(a, c)
  {
    forall x | x in a.calls
      ensures x in c.calls && CallStays(a.calls[x], c.calls[x])
    {
      assert x in b.calls && CallStays(a.calls[x], b.calls[x]);
    }
  }

  lemma {:induction false} RunOnlyAdds(states: seq<State>, steps: seq<Step>, i: nat, j: nat)
    requires Run(states, steps) && i <= j < |states|
    ensures Onward(states[i], states[j])
  {
    if i == j {
    } else {
      RunOnlyAdds(states, steps, i, j - 1);
      RunGoesOn(states, steps, j - 1);
      OnwardTransitive(states[i], states[j - 1], states[j]);
    }
  }

  /**
   In every run the calls have a sequential history of the atomic register. The log is legal and
   produces exactly the stored rows; each call that answered is in it with its own answer, at or
   after its invocation, and no two share a position; and every put in it is that of some call, with
   that call's user and pair, at or after its invocation.
   */
  lemma PutIsLinearizable(states: seq<State>, steps: seq<Step>, i: nat)
    requires Run(states, steps) && i < |states|
    ensures var s := states[i];
            && Legal(s.log) && Replay(s.log) == s.rows
            && (forall c | c in s.calls && Answered(s.calls[c]) ::
                  var call := s.calls[c];
                  && call.invoked <= call.progress.at < |s.log|
                  && s.log[call.progress.at] == PutEvent(c, call.user, call.pair, call.progress.reply))
            && (forall a, b | a in s.calls && b in s.calls && Answered(s.calls[a]) && Answered(s.calls[b]) && a != b ::
                  s.calls[a].progress.at != s.calls[b].progress.at)
            && (forall k | 0 <= k < |s.log| && s.log[k].PutEvent? ::
                  && s.log[k].caller in s.calls
                  && var call := s.calls[s.log[k].caller];
                     call.user == s.log[k].user && call.pair == s.log[k].pair && call.invoked <= k)
            && OncePerCall(s.log)
  {
    RunKeepsInv(states, steps, i);
    var s := states[i];
    forall c | c in s.calls && Answered(s.calls[c])
      ensures s.calls[c].invoked <= s.calls[c].progress.at < |s.log|
      ensures s.log[s.calls[c].progress.at] == PutEvent(c, s.calls[c].user, s.calls[c].pair, s.calls[c].progress.reply)
    {
      assert CallOk(s, c, s.calls[c]);
    }
    forall k | 0 <= k < |s.log| && s.log[k].PutEvent?
      ensures EventOk(s, k, s.log[k])
    {
    }
  }

  /** The history respects real time: a call that answered before another began comes first. */
  lemma HistoryFollowsRealTime(states: seq<State>, steps: seq<Step>, i: nat, j: nat, a: CallerId, b: CallerId)
    requires Run(states, steps) && i <= j < |states|
    requires a in states[i].calls && b !in states[i].calls && b in states[j].calls
    requires Answered(states[i].calls[a]) && Answered(states[j].calls[b])
    ensures states[i].calls[a].progress.at < states[j].calls[b].progress.at
  {
    RunKeepsInv(states, steps, i);
    RunKeepsInv(states, steps, j);
    assert CallOk(states[i], a, states[i].calls[a]) && CallOk(states[j], b, states[j].calls[b]);
    InvokedLate(states, steps, i, j, b);
    RunOnlyAdds(states, steps, i, j);
  }

  lemma {:induction false} InvokedLate(states: seq<State>, steps: seq<Step>, i: nat, j: nat, b: CallerId)
    requires Run(states, steps) && i <= j < |states| && b !in states[i].calls && b in states[j].calls
    ensures states[j].calls[b].invoked >= |states[i].log|
  {
    RunOnlyAdds(states, steps, i, j - 1);
    assert Enabled(states[j - 1], steps[j - 1]) && states[j] == Next(states[j - 1], steps[j - 1]);
    if b in states[j - 1].calls {
      InvokedLate(states, steps, i, j - 1, b);
    }
  }

  /** The stored pair of a user never changes once set. */
  lemma RegisterIsWriteOnce(states: seq<State>, steps: seq<Step>, i: nat, j: nat, user: UserId)
    requires Run(states, steps) && i <= j < |states| && user in states[i].rows
    ensures user in states[j].rows && states[j].rows[user] == states[i].rows[user]
  {
    RunOnlyAdds(states, steps, i, j);
  }

  /**
   Success means the stored pair is the caller's, then and ever after, so two successes for a user
   carry the same pair.
   */
  lemma SuccessesAgree(states: seq<State>, steps: seq<Step>, i: nat, j: nat, a: CallerId, b: CallerId)
    requires Run(states, steps) && i <= j < |states|
    requires a in states[i].calls && states[i].calls[a].progress.Returned?
        && states[i].calls[a].progress.reply == Stored
    requires b in states[j].calls && states[j].calls[b].progress.Returned?
        && states[j].calls[b].progress.reply == Stored
    ensures var x, y := states[i].calls[a], states[j].calls[b];
            && x.user in states[j].rows && states[j].rows[x.user] == x.pair
            && (x.user == y.user ==> x.pair == y.pair)
  {
    RunKeepsInv(states, steps, i);
    RunKeepsInv(states, steps, j);
    assert CallOk(states[i], a, states[i].calls[a]) && CallOk(states[j], b, states[j].calls[b]);
    RunOnlyAdds(states, steps, i, j);
  }

  /** The second SELECT always finds the row that made the INSERT do nothing. */
  lemma ReselectFindsTheRow(states: seq<State>, steps: seq<Step>, i: nat, c: CallerId)
    requires Run(states, steps) && i < |states| && At(states[i], c, LostRace)
    ensures states[i].calls[c].user in states[i].rows
  {
    RunKeepsInv(states, steps, i);
    assert CallOk(states[i], c, states[i].calls[c]);
  }
}
