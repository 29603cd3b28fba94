/** The life of an appliance: boot after boot, the program is run to configure the machine or
    to recover it, and is killed at any point. */
module Lifetime {
  import opened Appliance
  import opened Protocol
  import opened Revisions
  import opened SheetPaths
  import opened Wrappers

  /** What the program is run to do. */
  datatype Command = Transact(request: Request, cmdline: seq<string>) | Recover

  /** The three operations that do harm when they fail, since nobody notices, do not fail. */
  predicate Watched(setting: Setting) {
    setting.Sure(CurrentProbe) && setting.Sure(IdentitiesProbe) && setting.Sure(NameRemoval)
  }

  ghost predicate AllConfined(commands: seq<Command>) {
    forall command :: command in commands && command.Transact? ==> Confined(command.request.flightSheet.name)
  }

  /** The requests among the commands. */
  function Requests(commands: seq<Command>): seq<Request> {
    if commands == [] then []
    else
      var last := commands[|commands| - 1];
      Requests(commands[..|commands| - 1]) + if last.Transact? then [last.request] else []
  }

  lemma {:induction false} RequestsSoFar(commands: seq<Command>, i: nat)
    requires i < |commands|
    ensures Requests(commands[..i + 1]) ==
              if commands[i].Transact? then Requests(commands[..i]) + [commands[i].request] else Requests(commands[..i])
  {
    assert commands[..i + 1][..i] == commands[..i];
  }

  function AllRequests(boots: seq<seq<Command>>): seq<Request> {
    if boots == [] then [] else AllRequests(boots[..|boots| - 1]) + Requests(boots[|boots| - 1])
  }

  /** `part` is `whole` with some items left out. */
  ghost predicate Among<T>(part: seq<T>, whole: seq<T>) {
    if part == [] then true
    else if whole == [] then false
    else
      var p, w := |part| - 1, |whole| - 1;
      (part[p] == whole[w] && Among(part[..p], whole[..w])) || Among(part, whole[..w])
  }

  lemma {:induction false} AmongLonger<T>(part: seq<T>, whole: seq<T>, item: T)
    requires Among(part, whole)
    ensures Among(part, whole + [item]) && Among(part + [item], whole + [item])
  {
    assert (whole + [item])[..|whole|] == whole && (part + [item])[..|part|] == part;
  }

  /** What is known of the machine between two commands. */
  ghost predicate Sound(s: State) {
    Unharmed(s) && (s.journal.Holds? ==> Named(s))
  }

  /** The requests answered with success are in the log, in order, and so is the log among
      the requests asked for. */
  ghost predicate Honoured(start: seq<Request>, log: seq<Request>, accepted: seq<Request>, asked: seq<Request>) {
    && start <= log
    && Among(accepted, log[|start|..])
    && Among(log[|start|..], asked)
  }

  lemma {:induction false} HonouredOn(
      start: seq<Request>, log: seq<Request>, accepted: seq<Request>, asked: seq<Request>, request: Request,
      log': seq<Request>, success: bool)
    requires Honoured(start, log, accepted, asked)
    requires log' == log + [request] || (log' == log && !success)
    ensures Honoured(start, log', if success then accepted + [request] else accepted, asked + [request])
  {
    AmongLonger(accepted, log[|start|..], request);
    AmongLonger(log[|start|..], asked, request);
    assert (log + [request])[|start|..] == log[|start|..] + [request];
  }

  /** One transaction on a sound machine leaves it sound, and logs its request at most once. */
  method RunTransaction(machine: Machine, request: Request, cmdline: seq<string>) returns (success: bool)
    requires machine.Valid() && !machine.crashed && Watched(machine.setting) && Sound(machine.View())
    requires Confined(request.flightSheet.name)
    modifies machine
    ensures machine.Valid() && old(machine.trace) <= machine.trace && Sound(machine.View())
    ensures machine.past.log == old(machine.past.log) + [request] ||
            (machine.past.log == old(machine.past.log) && !success)
  {
    var result, unnoticed := machine.Transact(request, cmdline);
    success := result.Ok?;
  }

  /** One recovery of a sound machine leaves it sound and logs nothing. */
  method RunRecovery(machine: Machine)
    requires machine.Valid() && !machine.crashed && Watched(machine.setting) && Sound(machine.View())
    modifies machine
    ensures machine.Valid() && old(machine.trace) <= machine.trace && Sound(machine.View())
    ensures machine.past.log == old(machine.past.log)
  {
    var ok;
    ghost var stopped, unnoticed;
    ok, stopped, unnoticed := machine.RecoverPending();
  }

  /** One boot: the program is started anew for every command, and may be killed in any. */
  method Boot(machine: Machine, commands: seq<Command>) returns (accepted: seq<Request>)
    requires machine.Valid() && Watched(machine.setting) && Sound(machine.View()) && AllConfined(commands)
    modifies machine
    ensures machine.Valid() && old(machine.trace) <= machine.trace && Sound(machine.View())
    ensures Honoured(old(machine.past.log), machine.past.log, accepted, Requests(commands))
  {
    accepted := [];
    for i := 0 to |commands|
      invariant machine.Valid() && old(machine.trace) <= machine.trace && Sound(machine.View())
      invariant Honoured(old(machine.past.log), machine.past.log, accepted, Requests(commands[..i]))
    {
      RequestsSoFar(commands, i);
      ghost var log := machine.past.log;
      machine.Restart();
      match commands[i]
      case Transact(request, cmdline) =>
        var success := RunTransaction(machine, request, cmdline);
        HonouredOn(old(machine.past.log), log, accepted, Requests(commands[..i]), request, machine.past.log, success);
        accepted := if success then accepted + [request] else accepted;
      case Recover =>
        RunRecovery(machine);
    }
    assert commands[..|commands|] == commands;
  }

  lemma {:induction false} AmongBoth<T>(a: seq<T>, b: seq<T>, c: seq<T>, d: seq<T>)
    requires Among(a, b) && Among(c, d)
    ensures Among(a + c, b + d)
  {
    if d == [] {
      assert a + c == a && b + d == b;
    } else {
      var p, w := |c| - 1, |d| - 1;
      assert (b + d)[..|b + d| - 1] == b + d[..w] && (b + d)[|b + d| - 1] == d[w];
      if c != [] && c[p] == d[w] && Among(c[..p], d[..w]) {
        AmongBoth(a, b, c[..p], d[..w]);
        assert (a + c)[..|a + c| - 1] == a + c[..p];
      } else {
        AmongBoth(a, b, c, d[..w]);
      }
    }
  }

  lemma {:induction false} HonouredThen(
      start: seq<Request>, log: seq<Request>, accepted: seq<Request>, asked: seq<Request>, log': seq<Request>,
      accepted': seq<Request>, asked': seq<Request>)
    requires Honoured(start, log, accepted, asked) && Honoured(log, log', accepted', asked')
    ensures Honoured(start, log', accepted + accepted', asked + asked')
  {
    assert log'[|start|..] == log[|start|..] + log'[|log|..];
    AmongBoth(accepted, log[|start|..], accepted', log'[|log|..]);
    AmongBoth(log[|start|..], asked, log'[|log|..], asked');
  }

  /** What a reader sees is the result of the requests committed so far. */
  ghost predicate ReadsAsLogged(s: State) {
    && Content(s) == Fold(s.past.log)
    && (forall link :: Resolve(s, link) == Fold(s.past.log))
    && (forall alias :: HoldsIdentity(Content(s), alias, Latest(s.past.log, alias)))
  }

  lemma {:induction false} SoundReadsAsLogged(faithful: bool, trace: seq<State>, i: nat)
    requires Run(faithful, trace) && i < |trace| && Unharmed(trace[|trace| - 1]) && !trace[i].journal.Holds?
    ensures ReadsAsLogged(trace[i])
  {
    HarmIsPermanent(faithful, trace, i, |trace| - 1);
    forall link
      ensures Resolve(trace[i], link) == Fold(trace[i].past.log)
    {
      RegisterRefinement(faithful, trace, i, link, false);
    }
    forall alias
      ensures HoldsIdentity(Content(trace[i]), alias, Latest(trace[i].past.log, alias))
    {
      IdentitiesSurviveRuns(faithful, trace, i, alias);
    }
    RegisterRefinement(faithful, trace, i, PolicyLink, false);
  }

  /** Any number of boots, each with any number of transactions and recoveries, in which the
      program may be killed anywhere and anything may fail, noticed or not, but the three
      `Watched` operations. No undo is doubtful and no identity is forgotten, and at every
      moment of the whole history at which no transaction is undecided, readers see exactly
      the requests committed so far. These are among the ones asked for, in order, and those
      reported as applied are among them. */
  method Boots(machine: Machine, boots: seq<seq<Command>>) returns (accepted: seq<Request>)
    requires machine.Valid() && Watched(machine.setting) && Sound(machine.View())
    requires forall b :: 0 <= b < |boots| ==> AllConfined(boots[b])
    modifies machine
    ensures machine.Valid() && old(machine.trace) <= machine.trace && Sound(machine.View())
    ensures Honoured(old(machine.past.log), machine.past.log, accepted, AllRequests(boots))
    ensures forall i :: 0 <= i < |machine.trace| && !machine.trace[i].journal.Holds? ==> ReadsAsLogged(machine.trace[i])
  {
    accepted := [];
    for b := 0 to |boots|
      invariant machine.Valid() && old(machine.trace) <= machine.trace && Sound(machine.View())
      invariant Honoured(old(machine.past.log), machine.past.log, accepted, AllRequests(boots[..b]))
    {
      ghost var log := machine.past.log;
      var more := Boot(machine, boots[b]);
      HonouredThen(old(machine.past.log), log, accepted, AllRequests(boots[..b]), machine.past.log, more,
                   Requests(boots[b]));
      assert boots[..b + 1][..b] == boots[..b];
      accepted := accepted + more;
      machine.Reboot();
    }
    assert boots[..|boots|] == boots;
    forall i | 0 <= i < |machine.trace| && !machine.trace[i].journal.Holds?
      ensures ReadsAsLogged(machine.trace[i])
    {
      SoundReadsAsLogged(machine.setting.faithful, machine.trace, i);
    }
  }
}
