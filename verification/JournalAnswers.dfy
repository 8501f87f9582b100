/**
 What one request is answered when nobody interferes, and the form of every journal entry.
 */
module JournalAnswers {
  import opened Numeric
  import opened Audio
  import opened Journal

  /** Three steps of one request: lookup, execution, acceptance. */
  function Served(commandId: string -> string, s: State, i: nat, found: bool, body: string, kept: bool): State {
    Apply(commandId, Apply(commandId, Apply(commandId, s, Advance(i, found, "")), Advance(i, true, body)), Advance(i, kept, ""))
  }

  /** The answer and the journal after an undisturbed request: an invalid command, a failing store and a journaled
      identifier end it before it runs; afterwards the store, its time and its command identifier decide. */
  lemma RequestVerdict(commandId: string -> string, s: State, i: nat, found: bool, body: string, kept: bool)
    requires i < |s.processes| && s.processes[i].phase.Begun? && !s.processes[i].invoked && !s.processes[i].inserted
    ensures var (t, c) := (Served(commandId, s, i, found, body, kept), s.processes[i].call);
            && |t.processes| == |s.processes| && t.processes[i].call == c
            && t.processes[i].phase.Done?
            && var (p, r) := (t.processes[i], t.processes[i].phase.result);
               if c.canonical.None? then
                 t.journal == s.journal && r == Ok(Response(c.version, c.id, InvalidRequest)) && !p.invoked
               else if !found then t.journal == s.journal && r == Err(StorageFailed) && !p.invoked
               else if c.id in s.journal then
                 && t.journal == s.journal && !p.invoked && r.Ok?
                 && (s.journal[c.id].canonical == c.canonical.value ==> r.value == s.journal[c.id].result)
                 && (s.journal[c.id].canonical != c.canonical.value ==> r.value == Response(c.version, c.id, RequestIdConflict))
               else
                 && p.invoked == c.reachesPort
                 && if !kept then t.journal == s.journal && r == Err(StorageFailed)
                    else if c.acceptedUtc < 0 || (exists id :: id in s.journal && s.journal[id].commandId == commandId(c.id))
                    then t.journal == s.journal && r == Err(IdentityCollision)
                    else
                      var response := Response(c.version, c.id, Executed(body));
                      && r == Ok(response) && p.inserted
                      && t.journal == s.journal[c.id := Entry(commandId(c.id), c.canonical.value, response)]
  {
  }

  // ---------------------------------------------------------------------
  // The form of entries
  // ---------------------------------------------------------------------

  /** An entry carries its request's command identifier and a response of that request's execution. */
  predicate Formed(commandId: string -> string, id: string, e: Entry) {
    e.commandId == commandId(id) && e.result.id == id && e.result.outcome.Executed?
  }

  /** A request between execution and acceptance holds the response of its execution. */
  predicate Holding(p: Process) {
    p.phase.Ran? ==> p.phase.response.id == p.call.id && p.phase.response.outcome.Executed?
  }

  ghost predicate AllFormed(commandId: string -> string, s: State) {
    && (forall id | id in s.journal :: Formed(commandId, id, s.journal[id]))
    && (forall a, b | a in s.journal && b in s.journal && a != b :: s.journal[a].commandId != s.journal[b].commandId)
    && (forall i | 0 <= i < |s.processes| :: Holding(s.processes[i]))
  }

  lemma FormedStep(commandId: string -> string, s: State, step: Step)
    requires AllFormed(commandId, s)
    ensures AllFormed(commandId, Apply(commandId, s, step))
  {
    var t := Apply(commandId, s, step);
    if step.Advance? && step.process < |s.processes| {
      var p := s.processes[step.process];
      assert Holding(p);
      if t.journal != s.journal {
        assert p.phase.Ran? && t.journal.Keys == s.journal.Keys + {p.call.id};
      }
    }
  }

  /** In every run each entry is the execution of its own request, under a command identifier no other entry has. */
  lemma {:induction false} EntriesFormed(commandId: string -> string, steps: seq<Step>)
    ensures AllFormed(commandId, Run(commandId, steps))
  {
    if steps != [] {
      EntriesFormed(commandId, steps[..|steps| - 1]);
      hide Apply, AllFormed;
      FormedStep(commandId, Run(commandId, steps[..|steps| - 1]), steps[|steps| - 1]);
    }
  }
}
