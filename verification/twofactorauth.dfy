/** The twofactorauth handler: discovers the entries of a pull request,
    starts every test of every entry without waiting for it, and for each
    rejection asks for an annotation for the entry's file — a warning for
    the rank of an additional domain, an error otherwise; the logger has no
    `addError`, so as written the error is never logged (see `Version`). It
    answers 200 with the joined logger messages, read before any test has
    settled, and never clears the logger. The state after a request is
    modelled as the state once every test has settled, in plan order,
    after the handler has returned; this assumes the runtime lets the
    unawaited tests finish and serves the next request from the same
    process. */
module TwoFactorAuth {
  import opened Common
  import opened Text
  import opened Log
  import opened Discovery
  import opened Checks
  import Blocklist

  /** Which of the handler's two defects are repaired. `hasAddError`: the
      logger has an `addError` shaped like `addWarning`; without it the
      call throws and the error line is lost. `awaitsTests`: the answer is
      built once every test of the request has settled; without it the
      answer is built before any of them has. */
  datatype Version = Version(hasAddError: bool, awaitsTests: bool)

  /** The handler as it stands. */
  const AsWritten: Version := Version(false, false)

  /** The handler with both defects repaired. */
  const Corrected: Version := Version(true, true)

  /** The annotation the `.catch` of a test asks for: a warning for the rank
      of an additional domain, an error for every other rejection. */
  function FailureEvent(file: string, step: Step, message: string): (e: Event)
    ensures e.Warning? <==> step.test.RankTest? && step.role == Additional
    ensures e.Warning? || e.Error?
    ensures e.file == file && e.message == message
  {
    if step.test.RankTest? && step.role == Additional then Warning(file, message) else Error(file, message)
  }

  /** The logger after the `.catch` handler of a rejection ran. */
  function Report(l: Logger, e: Event, version: Version): Logger {
    if e.Error? && !version.hasAddError then l else Apply(l, e)
  }

  /** One test with its `.catch` handler. */
  function RunCaught(step: Step, file: string, env: Env, st: State, version: Version): State {
    var r := Run(step, env, st);
    if r.verdict.Fail?
    then State(Report(r.state.log, FailureEvent(file, step, r.verdict.message), version), r.state.cache)
    else r.state
  }

  /** The `try` block of one entry: its tests, none of them awaited. */
  function RunAllSteps(steps: seq<Step>, file: string, env: Env, st: State, version: Version): State
    decreases |steps|
  {
    if |steps| == 0 then st
    else RunAllSteps(steps[1..], file, env, RunCaught(steps[0], file, env, st, version), version)
  }

  function RunAllEntries(entries: seq<Entry>, env: Env, st: State, version: Version): State
    decreases |entries|
  {
    if |entries| == 0 then st
    else RunAllEntries(entries[1..], env, RunAllSteps(Plan(entries[0]), entries[0].file, env, st, version), version)
  }

  /** The logger the answer is read from. */
  function Answered(before: Logger, after: Logger, version: Version): Logger {
    if version.awaitsTests then after else before
  }

  function Respond(listing: Fetched<Listing>, raw: RawSource, env: Env, st: State, version: Version): (h: Handled)
    ensures FetchEntries(listing, TwoFactorAuth, raw).Err? ==>
              h == Handled(Thrown(FetchEntries(listing, TwoFactorAuth, raw).error), st)
    ensures FetchEntries(listing, TwoFactorAuth, raw).Ok? ==>
              h.response == Common.Respond(DefaultStatus, Join(GetMessages(Answered(st.log, h.state.log, version)), '\n'))
  {
    match FetchEntries(listing, TwoFactorAuth, raw)
    case Err(m) => Handled(Thrown(m), st)
    case Ok(entries) =>
      var st' := RunAllEntries(entries, env, st, version);
      Handled(Common.Respond(DefaultStatus, Join(GetMessages(Answered(st.log, st'.log, version)), '\n')), st')
  }

  /** The handler with the `addError` it calls. */
  function Handle(listing: Fetched<Listing>, raw: RawSource, env: Env, st: State): Handled {
    Respond(listing, raw, env, st, Corrected)
  }

  /** The handler with the logger as it stands. */
  function HandleAsWritten(listing: Fetched<Listing>, raw: RawSource, env: Env, st: State): Handled {
    Respond(listing, raw, env, st, AsWritten)
  }

  /** The add calls one scheduled test leads to, judged in a fresh process. */
  function StepEvents(s: Scheduled, env: Env, version: Version): seq<Event> {
    var v := Outcome(s.step.test, env);
    if v.Pass? then OwnEvents(s.step.test, env)
    else
      var e := FailureEvent(s.file, s.step, v.message);
      if e.Error? && !version.hasAddError then [] else [e]
  }

  function ExpectedEvents(s: seq<Scheduled>, env: Env, version: Version): seq<Event>
    decreases |s|
  {
    if |s| == 0 then [] else StepEvents(s[0], env, version) + ExpectedEvents(s[1..], env, version)
  }

  /** The flat loop the nested loops amount to. */
  function RunSchedule(s: seq<Scheduled>, env: Env, st: State, version: Version): State
    decreases |s|
  {
    if |s| == 0 then st
    else RunSchedule(s[1..], env, RunCaught(s[0].step, s[0].file, env, st, version), version)
  }

  lemma {:induction false} RunAllStepsIsFlat(steps: seq<Step>, file: string, env: Env, st: State, version: Version)
    ensures RunAllSteps(steps, file, env, st, version) == RunSchedule(Tagged(file, steps), env, st, version)
    decreases |steps|
  {
    if |steps| > 0 {
      RunAllStepsIsFlat(steps[1..], file, env, RunCaught(steps[0], file, env, st, version), version);
      assert Tagged(file, steps)[1..] == Tagged(file, steps[1..]);
    }
  }

  lemma {:induction false} RunScheduleAppend(a: seq<Scheduled>, b: seq<Scheduled>, env: Env, st: State, version: Version)
    ensures RunSchedule(a + b, env, st, version) == RunSchedule(b, env, RunSchedule(a, env, st, version), version)
    decreases |a|
  {
    if |a| == 0 {
      assert a + b == b;
    } else {
      assert (a + b)[0] == a[0];
      assert (a + b)[1..] == a[1..] + b;
      RunScheduleAppend(a[1..], b, env, RunCaught(a[0].step, a[0].file, env, st, version), version);
    }
  }

  /** The nested loops run the flat schedule. */
  lemma {:induction false} RunAllEntriesIsFlat(entries: seq<Entry>, env: Env, st: State, version: Version)
    ensures RunAllEntries(entries, env, st, version) == RunSchedule(Schedule(entries), env, st, version)
    decreases |entries|
  {
    if |entries| > 0 {
      var e := entries[0];
      RunAllStepsIsFlat(Plan(e), e.file, env, st, version);
      RunScheduleAppend(Tagged(e.file, Plan(e)), Schedule(entries[1..]), env, st, version);
      RunAllEntriesIsFlat(entries[1..], env, RunAllSteps(Plan(e), e.file, env, st, version), version);
    }
  }

  /** One test with its handler, while the cache is coherent, performs the
      add calls of `StepEvents` and keeps the cache coherent. */
  lemma RunCaughtIsStateless(s: Scheduled, env: Env, st: State, version: Version)
    requires Blocklist.Coherent(st.cache, env.lists)
    ensures RunCaught(s.step, s.file, env, st, version).log == Replay(st.log, StepEvents(s, env, version))
    ensures Blocklist.Coherent(RunCaught(s.step, s.file, env, st, version).cache, env.lists)
  {
    RunIsStateless(s.step, env, st);
    var v := Outcome(s.step.test, env);
    if v.Fail? {
      assert OwnEvents(s.step.test, env) == [];
      var e := FailureEvent(s.file, s.step, v.message);
      if !(e.Error? && !version.hasAddError) {
        assert Replay(st.log, [e]) == Replay(Apply(st.log, e), []);
      }
    }
  }

  /** Every test runs: the logger receives, in schedule order, the lines of
      every test as a fresh process would judge it, after the lines it
      already held; the cache stays coherent. */
  lemma {:induction false} RunScheduleReference(s: seq<Scheduled>, env: Env, st: State, version: Version)
    requires Blocklist.Coherent(st.cache, env.lists)
    ensures RunSchedule(s, env, st, version).log == Replay(st.log, ExpectedEvents(s, env, version))
    ensures Blocklist.Coherent(RunSchedule(s, env, st, version).cache, env.lists)
    decreases |s|
  {
    if |s| > 0 {
      var st1 := RunCaught(s[0].step, s[0].file, env, st, version);
      RunCaughtIsStateless(s[0], env, st, version);
      RunScheduleReference(s[1..], env, st1, version);
      ReplayConcat(st.log, StepEvents(s[0], env, version), ExpectedEvents(s[1..], env, version));
    }
  }

  /** The handler against the flat schedule of the discovered entries: the
      answer is always 200; the logger keeps every earlier line and gains
      the lines of the request's tests in schedule order, for the next
      request to see; the corrected body joins all of them by newlines, the
      body as written only the earlier ones. */
  lemma HandleReference(listing: Fetched<Listing>, raw: RawSource, env: Env, st: State, version: Version)
    requires Blocklist.Coherent(st.cache, env.lists)
    requires FetchEntries(listing, TwoFactorAuth, raw).Ok?
    ensures var s := Schedule(FetchEntries(listing, TwoFactorAuth, raw).value);
            var h := Respond(listing, raw, env, st, version);
            && h.state.log == Replay(st.log, ExpectedEvents(s, env, version))
            && h.response == Common.Respond(DefaultStatus,
                 Join(if version.awaitsTests then h.state.log.messages else st.log.messages, '\n'))
    ensures Blocklist.Coherent(Respond(listing, raw, env, st, version).state.cache, env.lists)
  {
    var entries := FetchEntries(listing, TwoFactorAuth, raw).value;
    RunAllEntriesIsFlat(entries, env, st, version);
    RunScheduleReference(Schedule(entries), env, st, version);
  }

  /** How each scheduled test is reported: a rejected rank test of an
      additional domain as a warning, any other rejection as an error, both
      for the entry's file; a passing blocklist test with its message; a
      passing rank or Facebook test not at all. */
  lemma Classification(s: Scheduled, env: Env)
    ensures var v := Outcome(s.step.test, env);
            && (v.Fail? && s.step.test.RankTest? && s.step.role == Additional ==>
                  StepEvents(s, env, Corrected) == [Warning(s.file, v.message)])
            && (v.Fail? && !(s.step.test.RankTest? && s.step.role == Additional) ==>
                  StepEvents(s, env, Corrected) == [Error(s.file, v.message)])
            && (v.Pass? && s.step.test.BlocklistTest? ==>
                  StepEvents(s, env, Corrected) ==
                    [Message(Blocklist.CheckName, Blocklist.NotFoundMessage(s.step.test.domain))])
            && (v.Pass? && !s.step.test.BlocklistTest? ==> StepEvents(s, env, Corrected) == [])
  {
  }

  /** The events of `es` that are not error annotations, in order. */
  function NonErrors(es: seq<Event>): (r: seq<Event>)
    ensures forall e :: e in r ==> !e.Error? && e in es
    decreases |es|
  {
    if |es| == 0 then [] else (if es[0].Error? then [] else [es[0]]) + NonErrors(es[1..])
  }

  /** The error annotations among `es`, in order. */
  function ErrorEvents(es: seq<Event>): (r: seq<Event>)
    ensures forall e :: e in r ==> e.Error? && e in es
    decreases |es|
  {
    if |es| == 0 then [] else (if es[0].Error? then [es[0]] else []) + ErrorEvents(es[1..])
  }

  lemma {:induction false} NonErrorsAppend(a: seq<Event>, b: seq<Event>)
    ensures NonErrors(a + b) == NonErrors(a) + NonErrors(b)
    decreases |a|
  {
    if |a| == 0 {
      assert a + b == b;
    } else {
      assert (a + b)[0] == a[0] && (a + b)[1..] == a[1..] + b;
      NonErrorsAppend(a[1..], b);
    }
  }

  lemma {:induction false} ErrorEventsAppend(a: seq<Event>, b: seq<Event>)
    ensures ErrorEvents(a + b) == ErrorEvents(a) + ErrorEvents(b)
    decreases |a|
  {
    if |a| == 0 {
      assert a + b == b;
    } else {
      assert (a + b)[0] == a[0] && (a + b)[1..] == a[1..] + b;
      ErrorEventsAppend(a[1..], b);
    }
  }

  /** The two filters together keep every event exactly once. */
  lemma {:induction false} FiltersPartition(es: seq<Event>)
    ensures |NonErrors(es)| + |ErrorEvents(es)| == |es|
    decreases |es|
  {
    if |es| > 0 {
      FiltersPartition(es[1..]);
    }
  }

  /** With `addError` in place, every rejection yields exactly one line, and
      the logger as it stands gets the same events, in the same order, with
      the error annotations removed; the removed ones are one per scheduled
      test that is reported as an error. */
  lemma {:induction false} AsWrittenLosesOnlyErrors(s: seq<Scheduled>, env: Env)
    ensures ExpectedEvents(s, env, AsWritten) == NonErrors(ExpectedEvents(s, env, Corrected))
    ensures |ErrorEvents(ExpectedEvents(s, env, Corrected))| == |Errors(s, env)|
    ensures |ExpectedEvents(s, env, Corrected)| ==
              |ExpectedEvents(s, env, AsWritten)| + |Errors(s, env)|
    ensures forall e :: e in ExpectedEvents(s, env, AsWritten) ==> !e.Error?
    decreases |s|
  {
    if |s| > 0 {
      var head := StepEvents(s[0], env, Corrected);
      var tail := ExpectedEvents(s[1..], env, Corrected);
      AsWrittenLosesOnlyErrors(s[1..], env);
      NonErrorsAppend(head, tail);
      ErrorEventsAppend(head, tail);
      FiltersPartition(ExpectedEvents(s, env, Corrected));
    }
  }

  /** The scheduled tests reported as errors. */
  function Errors(s: seq<Scheduled>, env: Env): seq<Scheduled>
    decreases |s|
  {
    if |s| == 0 then []
    else
      var v := Outcome(s[0].step.test, env);
      (if v.Fail? && FailureEvent(s[0].file, s[0].step, v.message).Error? then [s[0]] else [])
      + Errors(s[1..], env)
  }

  /** The rank service and the list server are down: the rank service
      answers 500 and every list request fails with `reason`. Every page
      exists, which does not matter to an entry without a Facebook handle. */
  function Outage(reason: string): Env {
    Env((d: string) => Got(SimilarWeb.RankReply(500, "", SimilarWeb.Absent)),
        (u: string) => Failed(reason),
        (h: string) => Got(DefaultStatus),
        0,
        (n: int) => "")
  }

  /** A pull request that adds one entry with only a primary domain. */
  function OneEntry(file: string, domain: string): Fetched<Listing> {
    Got(Listing(DefaultStatus, "", [FileRecord(file, "added", file)]))
  }

  function Document(domain: string): RawSource {
    (u: string) => Got(EntryDoc(domain, None, None))
  }

  lemma OneEntryDiscovered(file: string, domain: string)
    requires StartsWith(file, EntriesPrefix)
    ensures FetchEntries(OneEntry(file, domain), TwoFactorAuth, Document(domain)) == Ok([Entry(file, domain, None, None)])
  {
    var raw := Document(domain);
    var r := FileRecord(file, "added", file);
    var entry := Entry(file, domain, None, None);
    assert IsCandidate(r);
    assert [r][0] == r && [r][1..] == [];
    assert raw(r.rawUrl) == Got(EntryDoc(domain, None, None));
    assert Tag(r, EntryDoc(domain, None, None), TwoFactorAuth) == entry;
    assert Discover([r][1..], TwoFactorAuth, raw) == Ok([]);
    assert [Tag(r, EntryDoc(domain, None, None), TwoFactorAuth)] + [] == [entry];
  }

  /** The entry's schedule: its primary rank test, then its blocklist test. */
  function PrimaryOnly(file: string, domain: string): seq<Scheduled> {
    [Scheduled(file, Step(RankTest(domain), Primary)), Scheduled(file, Step(BlocklistTest(domain), Primary))]
  }

  lemma OneEntrySchedule(file: string, domain: string)
    ensures Schedule([Entry(file, domain, None, None)]) == PrimaryOnly(file, domain)
  {
    var entry := Entry(file, domain, None, None);
    assert [entry][0] == entry && [entry][1..] == [];
    assert AdditionalDomains(entry) == [];
    assert Plan(entry) == [Step(RankTest(domain), Primary), Step(BlocklistTest(domain), Primary)];
    assert Schedule([entry]) == Tagged(file, Plan(entry)) + Schedule([]);
  }

  lemma OutageVerdicts(domain: string, reason: string)
    ensures Outcome(RankTest(domain), Outage(reason)) == Fail(SimilarWeb.FetchFailedMessage)
    ensures Outcome(BlocklistTest(domain), Outage(reason)) == Fail(reason)
  {
    var env := Outage(reason);
    Blocklist.CheckVerdict(domain, Fresh, map[], env.lists);
    var v := Blocklist.Check(domain, Fresh, map[], env.lists).verdict;
    assert !Blocklist.Consulted(Blocklist.Malware, map[], env.lists).Ok?;
    var c :| Blocklist.Finding(c, domain, Blocklist.Consulted(c, map[], env.lists)) == Some(v.message);
  }

  lemma OutageEvents(file: string, domain: string, reason: string, version: Version)
    ensures ExpectedEvents(PrimaryOnly(file, domain), Outage(reason), version) ==
              if version.hasAddError then [Error(file, SimilarWeb.FetchFailedMessage), Error(file, reason)] else []
  {
    var env := Outage(reason);
    var s := PrimaryOnly(file, domain);
    OutageVerdicts(domain, reason);
    assert s[1..][1..] == [];
    assert StepEvents(s[0], env, version) == if version.hasAddError then [Error(file, SimilarWeb.FetchFailedMessage)] else [];
    assert StepEvents(s[1], env, version) == if version.hasAddError then [Error(file, reason)] else [];
    assert ExpectedEvents(s[1..], env, version) == StepEvents(s[1], env, version) + ExpectedEvents(s[1..][1..], env, version);
  }

  /** The outage under each repair on its own: the logger gains one error line
      per test of the entry, in order, exactly when `addError` exists, and
      the answer carries the request's lines exactly when it is built after
      the tests settle. */
  lemma OutageRun(file: string, domain: string, reason: string, log: Logger, version: Version)
    requires StartsWith(file, EntriesPrefix)
    ensures var h := Respond(OneEntry(file, domain), Document(domain), Outage(reason), State(log, map[]), version);
            var lines := log.messages +
              (if version.hasAddError then [ErrorLine(file, SimilarWeb.FetchFailedMessage), ErrorLine(file, reason)] else []);
            && h.state.log.messages == lines
            && h.response == Common.Respond(DefaultStatus, Join(if version.awaitsTests then lines else log.messages, '\n'))
  {
    OneEntryDiscovered(file, domain);
    OneEntrySchedule(file, domain);
    OutageEvents(file, domain, reason, version);
    HandleReference(OneEntry(file, domain), Document(domain), Outage(reason), State(log, map[]), version);
    if version.hasAddError {
      TwoErrorsLogged(log, file, SimilarWeb.FetchFailedMessage, reason);
    }
  }

  /** Both tests of the entry reject during an outage, and with `addError`
      in place the logger gains one error line per rejection, in order, and
      the answer carries them. */
  lemma OutageIsReported(file: string, domain: string, reason: string, log: Logger)
    requires StartsWith(file, EntriesPrefix)
    ensures var h := Handle(OneEntry(file, domain), Document(domain), Outage(reason), State(log, map[]));
            var lines := log.messages + [ErrorLine(file, SimilarWeb.FetchFailedMessage), ErrorLine(file, reason)];
            h.state.log.messages == lines && h.response == Common.Respond(DefaultStatus, Join(lines, '\n'))
  {
    OutageRun(file, domain, reason, log, Corrected);
  }

  /** Replaying two errors appends their two lines. */
  lemma TwoErrorsLogged(log: Logger, file: string, a: string, b: string)
    ensures Replay(log, [Error(file, a), Error(file, b)]).messages == log.messages + [ErrorLine(file, a), ErrorLine(file, b)]
  {
    var events := [Error(file, a), Error(file, b)];
    ReplayIsAppend(log, events);
    assert Lines(events) == [ErrorLine(file, a), ErrorLine(file, b)];
  }

  /** The same outage with the logger as it stands: the logger gains
      nothing, so the answer is a 200 whose body holds no line about this
      pull request. */
  lemma OutageIsSilentAsWritten(file: string, domain: string, reason: string, log: Logger)
    requires StartsWith(file, EntriesPrefix)
    ensures var h := HandleAsWritten(OneEntry(file, domain), Document(domain), Outage(reason), State(log, map[]));
            h.state.log == log && h.response == Common.Respond(DefaultStatus, Join(log.messages, '\n'))
  {
    OutageRun(file, domain, reason, log, AsWritten);
  }

  /** Services that are all healthy: every domain has rank 0 against a
      limit of 0 and every list is empty. */
  function Healthy(): Env {
    Env((d: string) => Got(SimilarWeb.RankReply(DefaultStatus, SimilarWeb.SuccessStatus, SimilarWeb.Present(Some(0)))),
        (u: string) => Got(""),
        (h: string) => Got(DefaultStatus),
        0,
        (n: int) => "")
  }

  lemma HealthyVerdicts(domain: string)
    ensures Outcome(RankTest(domain), Healthy()) == Pass
    ensures Outcome(BlocklistTest(domain), Healthy()) == Pass
  {
    var env := Healthy();
    assert Blocklist.ParseList("") == {} by {
      assert Split("", '\n') == [[]];
      assert Trim([]) == [];
    }
    Blocklist.CheckVerdict(domain, Fresh, map[], env.lists);
  }

  lemma HealthyEvents(file: string, domain: string, version: Version)
    ensures ExpectedEvents(PrimaryOnly(file, domain), Healthy(), version) ==
              [Message(Blocklist.CheckName, Blocklist.NotFoundMessage(domain))]
  {
    var s := PrimaryOnly(file, domain);
    HealthyVerdicts(domain);
    assert s[1..][1..] == [];
    assert StepEvents(s[0], Healthy(), version) == [];
    assert ExpectedEvents(s[1..], Healthy(), version) ==
             StepEvents(s[1], Healthy(), version) + ExpectedEvents(s[1..][1..], Healthy(), version);
  }

  /** A pull request whose entry passes every test, under each repair on its
      own: the blocklist test logs its message whatever the version, and the
      answer carries it exactly when it is built after the tests settle. */
  lemma HealthyRun(file: string, domain: string, log: Logger, version: Version)
    requires StartsWith(file, EntriesPrefix)
    ensures var h := Respond(OneEntry(file, domain), Document(domain), Healthy(), State(log, map[]), version);
            var lines := log.messages + [MessageLine(Blocklist.CheckName, Blocklist.NotFoundMessage(domain))];
            && h.state.log.messages == lines
            && h.response == Common.Respond(DefaultStatus, Join(if version.awaitsTests then lines else log.messages, '\n'))
  {
    OneEntryDiscovered(file, domain);
    OneEntrySchedule(file, domain);
    HealthyEvents(file, domain, version);
    HandleReference(OneEntry(file, domain), Document(domain), Healthy(), State(log, map[]), version);
    MessageLogged(log, domain);
  }

  /** The same pull request with the handler as written: the blocklist test
      logs its message, which a later request served by the same process
      would see, but the answer, built before the test settles, does not
      carry it. */
  lemma HealthyRunAsWritten(file: string, domain: string, log: Logger)
    requires StartsWith(file, EntriesPrefix)
    ensures var h := HandleAsWritten(OneEntry(file, domain), Document(domain), Healthy(), State(log, map[]));
            && h.state.log.messages == log.messages + [MessageLine(Blocklist.CheckName, Blocklist.NotFoundMessage(domain))]
            && h.response == Common.Respond(DefaultStatus, Join(log.messages, '\n'))
  {
    HealthyRun(file, domain, log, AsWritten);
  }

  /** The same pull request with the corrected handler: the answer carries
      the blocklist message. */
  lemma HealthyRunReported(file: string, domain: string, log: Logger)
    requires StartsWith(file, EntriesPrefix)
    ensures var h := Handle(OneEntry(file, domain), Document(domain), Healthy(), State(log, map[]));
            var lines := log.messages + [MessageLine(Blocklist.CheckName, Blocklist.NotFoundMessage(domain))];
            h.state.log.messages == lines && h.response == Common.Respond(DefaultStatus, Join(lines, '\n'))
  {
    HealthyRun(file, domain, log, Corrected);
  }

  lemma MessageLogged(log: Logger, domain: string)
    ensures Replay(log, [Message(Blocklist.CheckName, Blocklist.NotFoundMessage(domain))]).messages ==
              log.messages + [MessageLine(Blocklist.CheckName, Blocklist.NotFoundMessage(domain))]
  {
    var e := Message(Blocklist.CheckName, Blocklist.NotFoundMessage(domain));
    ReplayIsAppend(log, [e]);
    assert Lines([e]) == [MessageLine(Blocklist.CheckName, Blocklist.NotFoundMessage(domain))];
  }
}
