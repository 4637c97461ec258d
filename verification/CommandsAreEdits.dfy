/**
 A vault command that saves is an edit of the account's devices as SerialUse and Convergence see them,
 stamped with the time of the command. So a command run at a late enough time reaches every device
 (internal/client/usecase/secret.go, sync.go).
 */
module CommandsAreEdits {
  import opened Basics
  import opened Entries
  import opened LocalRows
  import opened SyncRound
  import opened Convergence
  import U = SerialUse
  import V = VaultCommands
  import W = VaultLaws

  /** The account's rows on the device after the command. */
  function ViewAfterCommand(v: V.Vault, u: UserId, c: V.Command, env: V.Env): Rows {
    ViewOfRows(V.Execute(v, Some(u), c, env).vault.rows, u)
  }

  /** The command changes the account's rows; so does every successful insertion or change. */
  predicate Saves(v: V.Vault, u: UserId, c: V.Command, env: V.Env) {
    (c.Add? || c.Change?) && V.Execute(v, Some(u), c, env).vault.rows != v.rows
  }

  /** Such a command puts one entry, the next version of it, at the time of the command, and dirty. */
  lemma SavedEntry(v: V.Vault, u: UserId, c: V.Command, env: V.Env) returns (e: Entry)
    requires WellKeyed(v.rows) && Saves(v, u, c, env)
    ensures e.uuid == c.id && e.updatedAt == env.now
    ensures e.version == if c.Add? then 1 else v.rows[c.id].entry.version + 1
    ensures ViewAfterCommand(v, u, c, env) == ViewOfRows(v.rows, u)[c.id := Row(e, true, u)]
    ensures c.Change? ==> c.id in ViewOfRows(v.rows, u)
  {
    W.CommandWrites(v, Some(u), c, env);
    var after := V.Execute(v, Some(u), c, env).vault.rows;
    e := after[c.id].entry;
    var edited, view := ViewOfRows(v.rows, u)[c.id := Row(e, true, u)], ViewOfRows(after, u);
    forall id
      ensures SameAt(view, edited, id)
    {
    }
    SameEverywhere(view, edited);
  }

  /** A successful insertion or change saves. */
  lemma SuccessSaves(v: V.Vault, u: UserId, c: V.Command, env: V.Env)
    requires WellKeyed(v.rows) && (c.Change? || (c.Add? && c.id !in v.rows))
    requires V.Execute(v, Some(u), c, env).reply.Ok?
    ensures Saves(v, u, c, env)
  {
    W.CommandWrites(v, Some(u), c, env);
  }

  // ----- In serial use -----

  /** The device in session holds the vault, and the command's time is later than an edit's must be. */
  ghost predicate AtCommand(s: U.State, d: DeviceId, v: V.Vault, u: UserId, c: V.Command, now: Time) {
    && d in s.fleet.locals && s.holder == Some(d) && s.fleet.locals[d] == ViewOfRows(v.rows, u)
    && now > 0 && (forall id | id in s.fleet.server :: now > s.fleet.server[id].updatedAt)
    && (forall r, id | r in s.late && s.late[r].device == d && id in s.late[r].batch ::
          now > s.late[r].batch[id].updatedAt)
    && (c.Add? ==> c.id !in v.rows && U.Fresh(s.fleet, c.id))
  }

  /** A command that saves is an enabled edit, and what it leaves on the device is what the edit leaves. */
  lemma CommandIsEdit(s: U.State, d: DeviceId, v: V.Vault, u: UserId, c: V.Command, env: V.Env) returns (e: Entry)
    requires WellKeyed(v.rows) && Saves(v, u, c, env) && AtCommand(s, d, v, u, c, env.now)
    ensures e.uuid == c.id && e.updatedAt == env.now
    ensures U.Enabled(s, U.Edit(d, e))
    ensures U.Next(s, u, U.Edit(d, e)).fleet.locals[d] == ViewAfterCommand(v, u, c, env)
  {
    e := SavedEntry(v, u, c, env);
  }

  /** A completed sync never takes a device back: it keeps each of its rows, at its version or above. */
  lemma RoundKeepsRow(server: ServerView, local: Rows, u: UserId, cursor: Time, inSession: bool, lossy: bool, id: Uuid)
    requires U.Plays(server, local, u, inSession, lossy) && id in local
    ensures var pulled := Pull(server, local, u, cursor); id in pulled && AtLeast(pulled[id].entry, local[id].entry)
  {
    PullAt(server, local, u, cursor, id);
    if inSession {
      assert U.Current(server, local, id) || U.Ahead(server, local, id);
    } else {
      assert U.Overtakes(server[id], local[id].entry);
    }
  }

  /** The device holds the entry, or a later version of it. */
  predicate Has(f: Fleet, d: DeviceId, e: Entry) {
    d in f.locals && e.uuid in f.locals[d] && AtLeast(f.locals[d][e.uuid].entry, e)
  }

  /** The server does. */
  predicate ServerHas(f: Fleet, e: Entry) {
    e.uuid in f.server && AtLeast(f.server[e.uuid], e)
  }

  lemma ActionKeeps(s: U.State, u: UserId, a: U.Action, d: DeviceId, e: Entry)
    requires U.Inv(s, u) && U.Enabled(s, a)
    ensures Has(s.fleet, d, e) ==> Has(U.Next(s, u, a).fleet, d, e)
    ensures ServerHas(s.fleet, e) ==> ServerHas(U.Next(s, u, a).fleet, e)
  {
    if a.Serve? {
      PushGrows(s.fleet.server, U.AsRows(s.late[a.request].batch, u));
    } else if U.Completes(a) {
      PushGrows(s.fleet.server, s.fleet.locals[a.device]);
      if a.device == d && e.uuid in s.fleet.locals[d] {
        RoundKeepsRow(s.fleet.server, s.fleet.locals[d], u, a.cursor, s.holder == Some(d), d in s.lost, e.uuid);
      }
    }
  }

  lemma RunKeepsOnce(u: UserId, devices: set<DeviceId>, states: seq<U.State>, actions: seq<U.Action>,
                     i: nat, d: DeviceId, e: Entry)
    requires U.Run(u, devices, states, actions) && i < |actions|
    ensures Has(states[i].fleet, d, e) ==> Has(states[i + 1].fleet, d, e)
    ensures ServerHas(states[i].fleet, e) ==> ServerHas(states[i + 1].fleet, e)
  {
    U.InvAt(u, devices, states, actions, i);
    ActionKeeps(states[i], u, actions[i], d, e);
  }

  /** From each state to the next, the device and the server keep having the entry. */
  ghost predicate KeepsOnce(states: seq<U.State>, d: DeviceId, e: Entry) {
    forall i | 0 < i < |states| ::
      && (Has(states[i - 1].fleet, d, e) ==> Has(states[i].fleet, d, e))
      && (ServerHas(states[i - 1].fleet, e) ==> ServerHas(states[i].fleet, e))
  }

  lemma {:induction false} KeepsEver(states: seq<U.State>, i: nat, j: nat, d: DeviceId, e: Entry)
    requires KeepsOnce(states, d, e) && i <= j < |states|
    ensures Has(states[i].fleet, d, e) ==> Has(states[j].fleet, d, e)
    ensures ServerHas(states[i].fleet, e) ==> ServerHas(states[j].fleet, e)
  {
    if i == j {
    } else {
      KeepsEver(states, i, j - 1, d, e);
    }
  }

  /** In a run of serial use no entry is lost or taken back, on a device or on the server. */
  lemma RunKeeps(u: UserId, devices: set<DeviceId>, states: seq<U.State>, actions: seq<U.Action>,
                 i: nat, j: nat, d: DeviceId, e: Entry)
    requires U.Run(u, devices, states, actions) && i <= j < |states|
    ensures Has(states[i].fleet, d, e) ==> Has(states[j].fleet, d, e)
    ensures ServerHas(states[i].fleet, e) ==> ServerHas(states[j].fleet, e)
  {
    forall k | 0 < k < |states|
      ensures Has(states[k - 1].fleet, d, e) ==> Has(states[k].fleet, d, e)
      ensures ServerHas(states[k - 1].fleet, e) ==> ServerHas(states[k].fleet, e)
    {
      RunKeepsOnce(u, devices, states, actions, k - 1, d, e);
    }
    KeepsEver(states, i, j, d, e);
  }

  /** Action `i` is the edit that the command makes on the device in session. */
  ghost predicate CommandAt(states: seq<U.State>, actions: seq<U.Action>, i: nat, d: DeviceId, v: V.Vault, u: UserId,
                            c: V.Command, env: V.Env)
    requires i < |states| && i < |actions|
  {
    && WellKeyed(v.rows) && Saves(v, u, c, env) && AtCommand(states[i], d, v, u, c, env.now)
    && c.id in ViewAfterCommand(v, u, c, env)
    && actions[i] == U.Edit(d, ViewAfterCommand(v, u, c, env)[c.id].entry)
  }

  /**
   A saved command reaches every device. In every run of serial use, once the device of the command
   has completed a sync after it, at `k`, every device that completes a sync after that, at `j`, holds
   the entry as the command saved it, or a later version of it.
   */
  lemma CommandReachesDevice(u: UserId, devices: set<DeviceId>, states: seq<U.State>, actions: seq<U.Action>,
                             i: nat, k: nat, j: nat, d: DeviceId, v: V.Vault, c: V.Command, env: V.Env)
    requires U.Run(u, devices, states, actions) && i < k < j < |actions|
    requires CommandAt(states, actions, i, d, v, u, c, env)
    requires U.Completes(actions[k]) && actions[k].device == d && U.Completes(actions[j])
    ensures var e := ViewAfterCommand(v, u, c, env)[c.id].entry;
            e.updatedAt == env.now && Has(states[j + 1].fleet, actions[j].device, e)
  {
    var e := CommandIsEdit(states[i], d, v, u, c, env);
    assert states[i + 1] == U.Next(states[i], u, actions[i]);
    RunKeeps(u, devices, states, actions, i + 1, k + 1, d, e);
    U.SerialUseConverges(u, devices, states, actions, k);
    RunKeeps(u, devices, states, actions, k + 1, j + 1, d, e);
    U.SerialUseConverges(u, devices, states, actions, j);
  }

  // ----- Whatever the use -----

  predicate Delivered(rows: Rows, e: Entry) {
    e.uuid in rows && rows[e.uuid].entry == e
  }

  /**
   With no assumption on how devices are used: once a saved command is pushed, an uninterrupted round
   of a device that has nothing to push brings it the entry if and only if the device's cursor is
   before the time of the command.
   */
  lemma CommandIsDeliveredIff(v: V.Vault, u: UserId, c: V.Command, env: V.Env, server: ServerView,
                              other: Rows, cursor: Time)
    requires WellKeyed(v.rows) && Saves(v, u, c, env)
    requires c.Add? ==> c.id !in server
    requires c.Change? && c.id in server ==> server[c.id].version <= v.rows[c.id].entry.version
    requires var local := ViewAfterCommand(v, u, c, env);
             && Settled(Push(server, local), other)
             && c.id in local && (c.id in other ==> other[c.id].entry != local[c.id].entry)
    ensures var local := ViewAfterCommand(v, u, c, env);
            var pushed := Push(server, local);
            && c.id in pushed && pushed[c.id] == local[c.id].entry
            && Push(pushed, other) == pushed
            && (Delivered(Pull(pushed, other, u, cursor), local[c.id].entry) <==> cursor < env.now)
  {
    var e := SavedEntry(v, u, c, env);
    var pushed := Push(server, ViewAfterCommand(v, u, c, env));
    SettledPushesNothing(pushed, other);
    PullAt(pushed, other, u, cursor, c.id);
  }
}
