/**
 The request journal under interleaved processors: each mutating request looks its identifier up, runs,
 and offers its response; every journal operation is one atomic transaction, and other processors may act
 between any two of them.
 */
module Journal {
  import opened Numeric
  import opened Audio

  datatype Outcome = Executed(body: string) | RequestIdConflict | InvalidRequest

  datatype Response = Response(version: nat, id: string, outcome: Outcome)

  /** A mutating request; `canonical` is absent for a command outside its documented bounds, and only
      some commands reach the receive port. */
  datatype Call = Call(version: nat, id: string, canonical: Option<string>, reachesPort: bool, acceptedUtc: i64)

  datatype Entry = Entry(commandId: string, canonical: string, result: Response)

  datatype JournalError = StorageFailed | IdentityCollision

  datatype Phase =
    | Begun
    | Missed
    | Ran(response: Response)
    | Done(result: Result<Response, JournalError>)

  /** One request in flight or finished.  The last three fields are history: whether the identifier was
      journaled when the request began, and whether the request invoked the port and was inserted. */
  datatype Process = Process(call: Call, phase: Phase, known: bool, invoked: bool, inserted: bool)

  datatype State = State(journal: map<string, Entry>, processes: seq<Process>)

  /** What the environment answers to one step: whether storage works, and the port's or command's
      outcome. */
  datatype Step =
    | Begin(call: Call)
    | Advance(process: nat, storageWorks: bool, body: string)

  function Conflict(c: Call): Response { Response(c.version, c.id, RequestIdConflict) }

  /** The answer to a request whose identifier is journaled. */
  function Answer(c: Call, canonical: string, e: Entry): Response {
    if e.canonical == canonical then e.result else Conflict(c)
  }

  /** One insert-or-read transaction; an insert that a constraint rejects is an identity collision. */
  function AcceptOrExisting(journal: map<string, Entry>, c: Call, e: Entry)
    : (map<string, Entry>, Result<Response, JournalError>)
  {
    if c.id in journal then (journal, Ok(Answer(c, e.canonical, journal[c.id])))
    else if c.acceptedUtc < 0 || exists id | id in journal :: journal[id].commandId == e.commandId
    then (journal, Err(IdentityCollision))
    else (journal[c.id := e], Ok(e.result))
  }

  function Lookup(journal: map<string, Entry>, c: Call, storageWorks: bool): Phase {
    if c.canonical.None? then Done(Ok(Response(c.version, c.id, InvalidRequest)))
    else if !storageWorks then Done(Err(StorageFailed))
    else if c.id in journal then Done(Ok(Answer(c, c.canonical.value, journal[c.id])))
    else Missed
  }

  function AdvanceProcess(
    commandId: string -> string, journal: map<string, Entry>, p: Process, storageWorks: bool, body: string)
    : (map<string, Entry>, Process)
  {
    match p.phase
    case Begun => (journal, p.(phase := Lookup(journal, p.call, storageWorks)))
    case Missed =>
      (journal, p.(phase := Ran(Response(p.call.version, p.call.id, Executed(body))), invoked := p.call.reachesPort))
    case Ran(response) =>
      if !storageWorks || p.call.canonical.None? then (journal, p.(phase := Done(Err(StorageFailed))))
      else
        var e := Entry(commandId(p.call.id), p.call.canonical.value, response);
        var accepted := AcceptOrExisting(journal, p.call, e);
        (accepted.0, p.(phase := Done(accepted.1), inserted := p.call.id !in journal && accepted.1.Ok?))
    case Done(_) => (journal, p)
  }

  function Apply(commandId: string -> string, s: State, step: Step): State {
    match step
    case Begin(c) => s.(processes := s.processes + [Process(c, Begun, c.id in s.journal, false, false)])
    case Advance(i, storageWorks, body) =>
      if i >= |s.processes| then s
      else
        var next := AdvanceProcess(commandId, s.journal, s.processes[i], storageWorks, body);
        State(next.0, s.processes[i := next.1])
  }

  function Run(commandId: string -> string, steps: seq<Step>): State {
    if steps == [] then State(map[], [])
    else Apply(commandId, Run(commandId, steps[..|steps| - 1]), steps[|steps| - 1])
  }

  // ---------------------------------------------------------------------
  // Invariant
  // ---------------------------------------------------------------------

  /** A finished request agrees with the journal; one that began after its identifier was journaled
      never reached the port; one that failed left nothing. */
  predicate Agrees(journal: map<string, Entry>, p: Process) {
    && (p.phase.Done? && p.phase.result.Ok? && p.call.canonical.Some? ==>
          p.call.id in journal && p.phase.result.value == Answer(p.call, p.call.canonical.value, journal[p.call.id]))
    && (p.known ==> p.call.id in journal && !p.invoked && (p.phase.Begun? || p.phase.Done?))
    && (p.phase.Missed? || p.phase.Ran? ==> p.call.canonical.Some?)
    && (p.phase.Ran? ==> p.phase.response.version == p.call.version && p.phase.response.id == p.call.id)
    && (p.inserted ==>
          && p.phase.Done? && p.call.canonical.Some? && p.call.id in journal
          && p.phase.result == Ok(journal[p.call.id].result)
          && journal[p.call.id].canonical == p.call.canonical.value)
  }

  predicate Inserter(s: State, id: string, i: nat) {
    i < |s.processes| && s.processes[i].inserted && s.processes[i].call.id == id
  }

  ghost predicate Invariant(s: State) {
    && (forall i | 0 <= i < |s.processes| :: Agrees(s.journal, s.processes[i]))
    && (forall id | id in s.journal :: exists i: nat :: Inserter(s, id, i))
    && (forall i, j | 0 <= i < j < |s.processes| && s.processes[i].inserted && s.processes[j].inserted ::
          s.processes[i].call.id != s.processes[j].call.id)
  }

  /** Entries are never changed or removed. */
  predicate Extends(a: map<string, Entry>, b: map<string, Entry>) {
    forall id | id in a :: id in b && b[id] == a[id]
  }

  lemma AgreesStable(a: map<string, Entry>, b: map<string, Entry>, p: Process)
    requires Extends(a, b) && Agrees(a, p)
    ensures Agrees(b, p)
  {
  }

  lemma AdvanceAgrees(commandId: string -> string, journal: map<string, Entry>, p: Process, storageWorks: bool, body: string)
    requires Agrees(journal, p)
    ensures var next := AdvanceProcess(commandId, journal, p, storageWorks, body);
            && Agrees(next.0, next.1) && Extends(journal, next.0)
            && next.1.call == p.call
            && (p.inserted ==> next.1.inserted && next.0 == journal)
            && (next.0 != journal ==> next.0.Keys == journal.Keys + {p.call.id} && next.1.inserted)
            && (next.1.inserted && !p.inserted ==> p.call.id !in journal)
            && (next.1.phase.Done? && next.1.phase.result.Err? ==> next.0 == journal)
  {
  }

  lemma StepKeeps(commandId: string -> string, s: State, step: Step)
    requires Invariant(s)
    ensures Invariant(Apply(commandId, s, step)) && Extends(s.journal, Apply(commandId, s, step).journal)
  {
    var t := Apply(commandId, s, step);
    match step {
      case Begin(c) =>
        forall id | id in t.journal
          ensures exists i: nat :: Inserter(t, id, i)
        {
          var i: nat :| Inserter(s, id, i);
          assert Inserter(t, id, i);
        }
      case Advance(k, storageWorks, body) =>
        if k < |s.processes| {
          AdvanceAgrees(commandId, s.journal, s.processes[k], storageWorks, body);
          AdvanceKeeps(commandId, s, k, storageWorks, body);
        }
    }
  }

  lemma AdvanceKeeps(commandId: string -> string, s: State, k: nat, storageWorks: bool, body: string)
    requires Invariant(s) && k < |s.processes|
    ensures Invariant(Apply(commandId, s, Advance(k, storageWorks, body)))
  {
    var p := s.processes[k];
    AdvanceAgrees(commandId, s.journal, p, storageWorks, body);
    var next := AdvanceProcess(commandId, s.journal, p, storageWorks, body);
    var t := State(next.0, s.processes[k := next.1]);
    hide AdvanceProcess;
    forall i | 0 <= i < |t.processes|
      ensures Agrees(t.journal, t.processes[i])
    {
      if i != k { AgreesStable(s.journal, t.journal, s.processes[i]); }
    }
    forall id | id in t.journal
      ensures exists i: nat :: Inserter(t, id, i)
    {
      if id in s.journal {
        var i: nat :| Inserter(s, id, i);
        assert Inserter(t, id, i);
      } else {
        assert Inserter(t, id, k);
      }
    }
    forall i, j | 0 <= i < j < |t.processes| && t.processes[i].inserted && t.processes[j].inserted
      ensures t.processes[i].call.id != t.processes[j].call.id
    {
      assert i != k ==> Agrees(s.journal, s.processes[i]);
      assert j != k ==> Agrees(s.journal, s.processes[j]);
    }
  }

  lemma {:induction false} InvariantAlways(commandId: string -> string, steps: seq<Step>)
    ensures Invariant(Run(commandId, steps))
  {
    if steps != [] {
      InvariantAlways(commandId, steps[..|steps| - 1]);
      StepKeeps(commandId, Run(commandId, steps[..|steps| - 1]), steps[|steps| - 1]);
    }
  }

  // ---------------------------------------------------------------------
  // What clients can rely on
  // ---------------------------------------------------------------------

  /** Whatever the interleaving, every successful valid request answers from the one entry of its
      identifier: the journaled response for the same command, a conflict for any other.  A request that
      began with its identifier journaled did not reach the port. */
  lemma JournalAgreement(commandId: string -> string, steps: seq<Step>, i: nat)
    requires i < |Run(commandId, steps).processes|
    ensures var s := Run(commandId, steps);
            var p := s.processes[i];
            && (p.phase.Done? && p.phase.result.Ok? && p.call.canonical.Some? ==>
                  && p.call.id in s.journal
                  && p.phase.result.value
                     == (if s.journal[p.call.id].canonical == p.call.canonical.value then s.journal[p.call.id].result
                         else Response(p.call.version, p.call.id, RequestIdConflict)))
            && (p.known ==> !p.invoked)
            && (p.phase.Done? && p.phase.result.Err? ==> !p.inserted)
  {
    InvariantAlways(commandId, steps);
    assert Agrees(Run(commandId, steps).journal, Run(commandId, steps).processes[i]);
  }

  /** Every entry is the response of exactly one request, so a failed acceptance leaves no entry. */
  lemma EntriesHaveOneAuthor(commandId: string -> string, steps: seq<Step>, id: string)
    requires id in Run(commandId, steps).journal
    ensures var s := Run(commandId, steps);
            exists i: nat | i < |s.processes| ::
              && s.processes[i].call.id == id && s.processes[i].phase == Done(Ok(s.journal[id].result))
              && s.processes[i].inserted
              && (forall j: nat | j < |s.processes| && s.processes[j].call.id == id && s.processes[j].inserted :: j == i)
  {
    InvariantAlways(commandId, steps);
    var s := Run(commandId, steps);
    hide Run;
    var i: nat :| Inserter(s, id, i);
    assert Agrees(s.journal, s.processes[i]);
  }

  /** Once journaled, an entry is permanent. */
  lemma {:induction false} EntriesPermanent(commandId: string -> string, steps: seq<Step>, more: seq<Step>)
    ensures Extends(Run(commandId, steps).journal, Run(commandId, steps + more).journal)
  {
    if more == [] {
      assert steps + more == steps;
    } else {
      var all := steps + more;
      assert all[..|all| - 1] == steps + more[..|more| - 1];
      RunLast(commandId, all);
      hide Apply, Invariant, Extends, Run;
      EntriesPermanent(commandId, steps, more[..|more| - 1]);
      InvariantAlways(commandId, all[..|all| - 1]);
      StepKeeps(commandId, Run(commandId, all[..|all| - 1]), all[|all| - 1]);
      ExtendsTrans(Run(commandId, steps).journal, Run(commandId, all[..|all| - 1]).journal, Run(commandId, all).journal);
    }
  }

  lemma RunLast(commandId: string -> string, steps: seq<Step>)
    requires steps != []
    ensures Run(commandId, steps) == Apply(commandId, Run(commandId, steps[..|steps| - 1]), steps[|steps| - 1])
  {
    hide Apply;
  }

  lemma ExtendsTrans(a: map<string, Entry>, b: map<string, Entry>, c: map<string, Entry>)
    requires Extends(a, b) && Extends(b, c)
    ensures Extends(a, c)
  {
  }
}
