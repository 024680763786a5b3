/** The passkeys handler: discovers the entries of a pull request, puts each
    through its tests one at a time, answers 400 with an error annotation at
    the first test that rejects, and otherwise answers with the joined
    logger messages and clears the logger. */
module Passkeys {
  import opened Common
  import opened Text
  import opened Log
  import opened Discovery
  import opened Checks
  import Blocklist

  /** How far the loops got: through every test, or stopped by the first
      rejection, which carries the entry's file and the message. */
  datatype Progress =
    | Completed(state: State)
    | Aborted(file: string, message: string, state: State)

  /** The inner `try` block: the tests of one entry, awaited in order. */
  function RunSteps(steps: seq<Step>, file: string, env: Env, st: State): Progress
    decreases |steps|
  {
    if |steps| == 0 then Completed(st)
    else
      var r := Run(steps[0], env, st);
      if r.verdict.Fail? then Aborted(file, r.verdict.message, r.state)
      else RunSteps(steps[1..], file, env, r.state)
  }

  /** The outer loop over the entries; a rejection returns at once. */
  function RunEntries(entries: seq<Entry>, env: Env, st: State): Progress
    decreases |entries|
  {
    if |entries| == 0 then Completed(st)
    else
      match RunSteps(Plan(entries[0]), entries[0].file, env, st)
      case Aborted(f, m, st') => Aborted(f, m, st')
      case Completed(st') => RunEntries(entries[1..], env, st')
  }

  /** The handler. A listing that cannot be obtained throws before any test
      runs. After a rejection the logger is not cleared. */
  function Handle(listing: Fetched<Listing>, raw: RawSource, env: Env, st: State): (h: Handled)
    ensures FetchEntries(listing, Passkeys, raw).Err? ==>
              h == Handled(Thrown(FetchEntries(listing, Passkeys, raw).error), st)
    ensures h.response.Respond? ==> h.response.status == 400 || h.response.status == DefaultStatus
    ensures h.response.Respond? && h.response.status == DefaultStatus ==> h.state.log == Fresh
  {
    match FetchEntries(listing, Passkeys, raw)
    case Err(m) => Handled(Thrown(m), st)
    case Ok(entries) =>
      match RunEntries(entries, env, st)
      case Aborted(f, m, st') => Handled(Respond(400, ErrorLine(f, m)), st')
      case Completed(st') =>
        Handled(Respond(DefaultStatus, Join(GetMessages(st'.log), '\n')), State(Clear(st'.log), st'.cache))
  }

  /** The flat loop the nested loops amount to. */
  function RunSchedule(s: seq<Scheduled>, env: Env, st: State): Progress
    decreases |s|
  {
    if |s| == 0 then Completed(st)
    else
      var r := Run(s[0].step, env, st);
      if r.verdict.Fail? then Aborted(s[0].file, r.verdict.message, r.state)
      else RunSchedule(s[1..], env, r.state)
  }

  lemma {:induction false} RunStepsIsFlat(steps: seq<Step>, file: string, env: Env, st: State)
    ensures RunSteps(steps, file, env, st) == RunSchedule(Tagged(file, steps), env, st)
    decreases |steps|
  {
    if |steps| > 0 {
      var r := Run(steps[0], env, st);
      RunStepsIsFlat(steps[1..], file, env, r.state);
      assert Tagged(file, steps)[1..] == Tagged(file, steps[1..]);
    }
  }

  /** Running a schedule in two parts: the second part starts from where the
      first completed, and does not run if the first stopped. */
  lemma {:induction false} RunScheduleAppend(a: seq<Scheduled>, b: seq<Scheduled>, env: Env, st: State)
    ensures RunSchedule(a + b, env, st) ==
              match RunSchedule(a, env, st)
              case Aborted(f, m, st') => Aborted(f, m, st')
              case Completed(st') => RunSchedule(b, env, st')
    decreases |a|
  {
    if |a| == 0 {
      assert a + b == b;
    } else {
      assert (a + b)[0] == a[0];
      assert (a + b)[1..] == a[1..] + b;
      RunScheduleAppend(a[1..], b, env, Run(a[0].step, env, st).state);
    }
  }

  /** The nested loops run the flat schedule. */
  lemma {:induction false} RunEntriesIsFlat(entries: seq<Entry>, env: Env, st: State)
    ensures RunEntries(entries, env, st) == RunSchedule(Schedule(entries), env, st)
    decreases |entries|
  {
    if |entries| > 0 {
      var e := entries[0];
      RunStepsIsFlat(Plan(e), e.file, env, st);
      RunScheduleAppend(Tagged(e.file, Plan(e)), Schedule(entries[1..]), env, st);
      match RunSteps(Plan(e), e.file, env, st)
      case Aborted(f, m, st') =>
      case Completed(st') =>
        RunEntriesIsFlat(entries[1..], env, st');
    }
  }

  /** Test `i` of the schedule is the first one that rejects. */
  predicate FirstFailureAt(s: seq<Scheduled>, env: Env, i: int) {
    && 0 <= i < |s|
    && Outcome(s[i].step.test, env).Fail?
    && forall j :: 0 <= j < i ==> Outcome(s[j].step.test, env).Pass?
  }

  /** The cache stays coherent through a schedule. */
  lemma {:induction false} RunScheduleKeepsCoherence(s: seq<Scheduled>, env: Env, st: State)
    requires Blocklist.Coherent(st.cache, env.lists)
    ensures Blocklist.Coherent(RunSchedule(s, env, st).state.cache, env.lists)
    decreases |s|
  {
    if |s| > 0 {
      RunIsStateless(s[0].step, env, st);
      RunScheduleKeepsCoherence(s[1..], env, Run(s[0].step, env, st).state);
    }
  }

  lemma AllPassShifts(s: seq<Scheduled>, env: Env)
    requires |s| > 0
    ensures (forall i :: 0 <= i < |s| ==> Outcome(s[i].step.test, env).Pass?) <==>
              Outcome(s[0].step.test, env).Pass? && forall i :: 0 <= i < |s| - 1 ==> Outcome(s[1..][i].step.test, env).Pass?
  {
    assert forall i :: 1 <= i < |s| ==> s[i] == s[1..][i - 1];
  }

  lemma FirstFailureShifts(s: seq<Scheduled>, env: Env, k: int)
    requires |s| > 0 && Outcome(s[0].step.test, env).Pass? && FirstFailureAt(s[1..], env, k)
    ensures FirstFailureAt(s, env, k + 1) && s[k + 1] == s[1..][k]
  {
    assert forall i :: 1 <= i <= k + 1 ==> s[i] == s[1..][i - 1];
  }

  lemma EventsOfPrefix(s: seq<Scheduled>, env: Env, k: nat)
    requires k < |s|
    ensures Events(s[..k + 1], env) == OwnEvents(s[0].step.test, env) + Events(s[1..][..k], env)
  {
    assert s[..k + 1][1..] == s[1..][..k];
  }

  /** The flat schedule completes exactly when no test rejects in a fresh
      process, having logged every passing test's lines. */
  lemma {:induction false} RunScheduleCompletes(s: seq<Scheduled>, env: Env, st: State)
    requires Blocklist.Coherent(st.cache, env.lists)
    ensures var r := RunSchedule(s, env, st);
            r.Completed? <==> forall i :: 0 <= i < |s| ==> Outcome(s[i].step.test, env).Pass?
    ensures var r := RunSchedule(s, env, st);
            r.Completed? ==> r.state.log == Replay(st.log, Events(s, env))
    decreases |s|
  {
    if |s| > 0 {
      var r0 := Run(s[0].step, env, st);
      RunIsStateless(s[0].step, env, st);
      var tail := s[1..];
      AllPassShifts(s, env);
      RunScheduleCompletes(tail, env, r0.state);
      if r0.verdict.Pass? {
        ReplayConcat(st.log, OwnEvents(s[0].step.test, env), Events(tail, env));
      }
    }
  }

  /** A schedule that stops does so at the first test that rejects in a
      fresh process, with its file and message, having logged the lines of
      the tests before it. */
  lemma {:induction false} RunScheduleStops(s: seq<Scheduled>, env: Env, st: State)
    requires Blocklist.Coherent(st.cache, env.lists)
    requires RunSchedule(s, env, st).Aborted?
    ensures var r := RunSchedule(s, env, st);
            exists i :: && FirstFailureAt(s, env, i)
                        && r.file == s[i].file
                        && Outcome(s[i].step.test, env) == Fail(r.message)
                        && r.state.log == Replay(st.log, Events(s[..i], env))
    decreases |s|
  {
    var r0 := Run(s[0].step, env, st);
    RunIsStateless(s[0].step, env, st);
    var r := RunSchedule(s, env, st);
    if r0.verdict.Fail? {
      assert s[..0] == [];
      assert FirstFailureAt(s, env, 0);
    } else {
      var tail := s[1..];
      RunScheduleStops(tail, env, r0.state);
      var k :| && FirstFailureAt(tail, env, k)
               && r.file == tail[k].file
               && Outcome(tail[k].step.test, env) == Fail(r.message)
               && r.state.log == Replay(r0.state.log, Events(tail[..k], env));
      FirstFailureShifts(s, env, k);
      EventsOfPrefix(s, env, k);
      ReplayConcat(st.log, OwnEvents(s[0].step.test, env), Events(tail[..k], env));
    }
  }

  /** The handler against the flat schedule of the discovered entries: 400
      exactly when some test rejects, naming the file and message of the
      first one and leaving the earlier tests' lines in the logger; otherwise
      the body is every line logged so far (earlier requests included)
      joined by newlines, and the logger is emptied. */
  lemma HandleReference(listing: Fetched<Listing>, raw: RawSource, env: Env, st: State)
    requires Blocklist.Coherent(st.cache, env.lists)
    requires FetchEntries(listing, Passkeys, raw).Ok?
    ensures var s := Schedule(FetchEntries(listing, Passkeys, raw).value);
            var h := Handle(listing, raw, env, st);
            h.response.Respond? && (h.response.status == 400 <==> exists i :: 0 <= i < |s| && Outcome(s[i].step.test, env).Fail?)
    ensures var s := Schedule(FetchEntries(listing, Passkeys, raw).value);
            var h := Handle(listing, raw, env, st);
            h.response.status == 400 ==>
              exists i :: && FirstFailureAt(s, env, i)
                          && h.response.body == ErrorLine(s[i].file, Outcome(s[i].step.test, env).message)
                          && h.state.log == Replay(st.log, Events(s[..i], env))
    ensures var s := Schedule(FetchEntries(listing, Passkeys, raw).value);
            var h := Handle(listing, raw, env, st);
            h.response.status != 400 ==>
              h.response.body == Join(Replay(st.log, Events(s, env)).messages, '\n') && h.state.log == Fresh
    ensures Blocklist.Coherent(Handle(listing, raw, env, st).state.cache, env.lists)
  {
    var entries := FetchEntries(listing, Passkeys, raw).value;
    var s := Schedule(entries);
    RunEntriesIsFlat(entries, env, st);
    RunScheduleKeepsCoherence(s, env, st);
    RunScheduleCompletes(s, env, st);
    if RunSchedule(s, env, st).Aborted? {
      RunScheduleStops(s, env, st);
    }
  }

  /** A listing that cannot be obtained, or is not ok, throws before any
      test: neither the logger nor the cache changes. */
  lemma ListingFailureRunsNothing(listing: Fetched<Listing>, raw: RawSource, env: Env, st: State)
    requires listing.Failed? || !IsOk(listing.value.status)
    ensures Handle(listing, raw, env, st).response.Thrown?
    ensures Handle(listing, raw, env, st).state == st
  {
  }
}
