/** What the ledgers must answer, read off the calls made before and their answers. */
module LedgerHistory {
  import opened Common
  import opened LedgerModel
  import opened LedgerAgreement

  datatype Past<O> = Past(call: Request<O>, answer: Answer<O>)

  /** The digest of the request that was granted the claim on `id`, if one was. */
  function GrantOf<O(==)>(history: seq<Past<O>>, id: Id): Option<string> {
    if history == [] then None
    else
      var last := history[|history| - 1];
      if last.call.Claim? && last.call.id == id && last.answer == Decided(New) then Some(last.call.digest)
      else GrantOf(history[..|history| - 1], id)
  }

  /** What the operation was last completed with, if it was. */
  function OutcomeOf<O(==)>(history: seq<Past<O>>, id: Id): Option<O> {
    if history == [] then None
    else
      var last := history[|history| - 1];
      if last.call.Complete? && last.call.id == id && last.answer == Completed then Some(last.call.outcome)
      else OutcomeOf(history[..|history| - 1], id)
  }

  /** Granted and not yet completed. */
  predicate Open<O(==)>(history: seq<Past<O>>, id: Id) {
    GrantOf(history, id).Some? && OutcomeOf(history, id).None?
  }

  /** A claim is new when its key was never granted and nothing else is open in its scope; a key that was
      granted is in conflict for another request, a duplicate with its outcome once completed, and in
      need of recovery until then. */
  ghost function Due<O>(history: seq<Past<O>>, call: Request<O>): Answer<O> {
    match call
    case Restart => Restarted
    case Complete(id, _) => if GrantOf(history, id).Some? then Completed else Raised
    case Claim(id, digest) =>
      match (GrantOf(history, id), OutcomeOf(history, id))
      case (Some(granted), outcome) =>
        if granted != digest then Decided(Conflict)
        else if outcome.Some? then Decided(Duplicate(outcome.value)) else Decided(RecoveryRequired)
      case (None, _) =>
        if exists other: Id :: other.0 == id.0 && Open(history, other) then Decided(Active) else Decided(New)
  }

  /** The ledger holds what the history says. */
  ghost predicate Remembers<O>(m: Memory<O>, history: seq<Past<O>>) {
    && (forall id :: id in m.entries <==> GrantOf(history, id).Some?)
    && (forall id | id in m.entries :: m.entries[id] == Entry(GrantOf(history, id).value, OutcomeOf(history, id)))
    && (forall id | OutcomeOf(history, id).Some? :: id in m.entries)
  }

  function Record<O>(calls: seq<Request<O>>, answers: seq<Answer<O>>): seq<Past<O>>
    requires |calls| == |answers|
  {
    seq(|calls|, i requires 0 <= i < |calls| => Past(calls[i], answers[i]))
  }

  lemma OneMore<O>(history: seq<Past<O>>, p: Past<O>, id: Id)
    ensures GrantOf(history + [p], id) ==
              if p.call.Claim? && p.call.id == id && p.answer == Decided(New) then Some(p.call.digest) else GrantOf(history, id)
    ensures OutcomeOf(history + [p], id) ==
              if p.call.Complete? && p.call.id == id && p.answer == Completed then Some(p.call.outcome)
              else OutcomeOf(history, id)
  {
    assert (history + [p])[..|history|] == history;
  }

  lemma AnswerIsDue<O>(m: Memory<O>, history: seq<Past<O>>, call: Request<O>)
    requires Coherent(m) && Remembers(m, history)
    ensures InMemory(m, call).1 == Due(history, call)
  {
    if call.Claim? && call.id !in m.entries {
      var scope := call.id.0;
      if scope in m.active {
        var other :| other in m.entries && m.entries[other].outcome.None? && other.0 == scope;
        assert Open(history, other);
      }
      if other: Id :| other.0 == scope && Open(history, other) {
        ScopeOfUnfinished(m, other);
      }
    }
  }

  lemma StillRemembers<O>(m: Memory<O>, history: seq<Past<O>>, call: Request<O>)
    requires Coherent(m) && Remembers(m, history)
    ensures var (next, answer) := InMemory(m, call);
            Remembers(next, history + [Past(call, answer)])
  {
    var (next, answer) := InMemory(m, call);
    var p := Past(call, answer);
    forall id
      ensures GrantOf(history + [p], id) ==
                if call.Claim? && call.id == id && answer == Decided(New) then Some(call.digest) else GrantOf(history, id)
      ensures OutcomeOf(history + [p], id) ==
                if call.Complete? && call.id == id && answer == Completed then Some(call.outcome) else OutcomeOf(history, id)
    {
      OneMore(history, p, id);
    }
    if call.Restart? { RestartKeepsCoherent(m); }
    hide Coherent, GrantOf, OutcomeOf;
    if call.Claim? && call.id !in m.entries { assert OutcomeOf(history, call.id).None?; }
  }

  /** From any ledger that holds its history, every answer of a disciplined run is the one due. */
  lemma {:induction false} AnswersAreDue<O>(m: Memory<O>, history: seq<Past<O>>, calls: seq<Request<O>>, n: nat)
    requires Coherent(m) && Remembers(m, history) && Disciplined(m, calls) && n < |calls|
    ensures |MemoryAnswers(m, calls)| == |calls|
    ensures MemoryAnswers(m, calls)[n] == Due(history + Record(calls[..n], MemoryAnswers(m, calls)[..n]), calls[n])
    decreases |calls|
  {
    var r := calls[0];
    var (next, answer) := InMemory(m, r);
    var rest, answers := calls[1..], MemoryAnswers(m, calls);
    assert answers == [answer] + MemoryAnswers(next, rest);
    SameLength(next, rest);
    hide Due, Remembers, InMemory, Coherent, MemoryAnswers;
    if n == 0 {
      AnswerIsDue(m, history, r);
      assert history + Record(calls[..0], answers[..0]) == history;
    } else {
      StillRemembers(m, history, r);
      assert Coherent(next) by { NextIsCoherent(m, r); }
      AnswersAreDue(next, history + [Past(r, answer)], rest, n - 1);
      var later := MemoryAnswers(next, rest);
      assert calls[..n] == [r] + rest[..n - 1] && answers[..n] == [answer] + later[..n - 1];
      assert history + Record(calls[..n], answers[..n]) == history + [Past(r, answer)] + Record(rest[..n - 1], later[..n - 1]);
    }
  }

  lemma {:induction false} SameLength<O>(m: Memory<O>, calls: seq<Request<O>>)
    ensures |MemoryAnswers(m, calls)| == |calls|
    decreases |calls|
  {
    if calls != [] { SameLength(InMemory(m, calls[0]).0, calls[1..]); }
  }

  lemma NextIsCoherent<O>(m: Memory<O>, r: Request<O>)
    requires Coherent(m) && (r.Complete? && r.id in m.entries ==> Unfinished(m, r.id))
    ensures Coherent(InMemory(m, r).0)
  {
    hide Coherent;
    match r {
      case Claim(id, digest) => ClaimKeepsCoherent(m, id, digest);
      case Complete(id, outcome) => if id in m.entries { CompletingKeepsCoherent(m, id, outcome); }
      case Restart => RestartKeepsCoherent(m);
    }
  }

  /** On every sequence of calls that completes only unfinished claims, both ledgers answer each call as
      the calls before it and their answers require. */
  lemma LedgersFollowHistory<O, J>(f: Format<O, J>, calls: seq<Request<O>>, n: nat)
    requires Disciplined(EmptyMemory(), calls) && AllSerializable(f, calls) && n < |calls|
    ensures var answers := MemoryAnswers(EmptyMemory(), calls);
            && |answers| == |calls| == |TableAnswers(f, map[], calls)|
            && var due := Due(Record(calls[..n], answers[..n]), calls[n]);
               answers[n] == due && SameAnswer(f, due, TableAnswers(f, map[], calls)[n])
  {
    EmptyLedgersAgree(f, calls);
    AnswersAreDue(EmptyMemory(), [], calls, n);
    var answers := MemoryAnswers(EmptyMemory(), calls);
    assert [] + Record(calls[..n], answers[..n]) == Record(calls[..n], answers[..n]);
    hide SameAnswer;
  }
}
