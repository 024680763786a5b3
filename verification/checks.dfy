/** What both handlers do with one entry: the tests it is put through, in
    order, and the effect of one test on the process state (the logger and
    the blocklist cache). The external requests are oracles held by `Env`. */
module Checks {
  import opened Common
  import opened Log
  import Blocklist
  import SimilarWeb
  import Facebook
  import opened Discovery

  datatype Test =
    | RankTest(domain: string)
    | BlocklistTest(domain: string)
    | FacebookTest(handle: string)

  /** Why a test runs: for the entry's own domain, for one of its additional
      domains, or for its Facebook contact. */
  datatype Role = Primary | Additional | Contact

  datatype Step = Step(test: Test, role: Role)

  /** `entry['additional-domains'] || []`. */
  function AdditionalDomains(e: Entry): seq<string> {
    if e.additionalDomains.Some? then e.additionalDomains.value else []
  }

  /** `entry.contact?.facebook` is truthy: present and not empty. */
  predicate HasFacebook(e: Entry) {
    e.facebook.Some? && e.facebook.value != ""
  }

  /** The rank test and then the blocklist test of one domain. */
  function DomainSteps(d: string, role: Role): seq<Step> {
    [Step(RankTest(d), role), Step(BlocklistTest(d), role)]
  }

  function AdditionalSteps(ds: seq<string>): seq<Step>
    decreases |ds|
  {
    if |ds| == 0 then [] else DomainSteps(ds[0], Additional) + AdditionalSteps(ds[1..])
  }

  /** The tests of one entry in the order the handlers start them. */
  function Plan(e: Entry): seq<Step> {
    DomainSteps(e.domain, Primary)
    + AdditionalSteps(AdditionalDomains(e))
    + (if HasFacebook(e) then [Step(FacebookTest(e.facebook.value), Contact)] else [])
  }

  /** Additional domains are tested in list order, rank before blocklist. */
  lemma {:induction false} AdditionalStepsInOrder(ds: seq<string>)
    ensures |AdditionalSteps(ds)| == 2 * |ds|
    ensures forall k :: 0 <= k < |ds| ==>
              && AdditionalSteps(ds)[2 * k] == Step(RankTest(ds[k]), Additional)
              && AdditionalSteps(ds)[2 * k + 1] == Step(BlocklistTest(ds[k]), Additional)
    decreases |ds|
  {
    if |ds| > 0 {
      AdditionalStepsInOrder(ds[1..]);
      var s := AdditionalSteps(ds);
      var rest := AdditionalSteps(ds[1..]);
      assert s == DomainSteps(ds[0], Additional) + rest;
      forall k | 1 <= k < |ds|
        ensures s[2 * k] == Step(RankTest(ds[k]), Additional)
        ensures s[2 * k + 1] == Step(BlocklistTest(ds[k]), Additional)
      {
        assert ds[1..][k - 1] == ds[k];
        assert s[2 * k] == rest[2 * (k - 1)];
        assert s[2 * k + 1] == rest[2 * (k - 1) + 1];
      }
    }
  }

  /** The order of an entry's tests: rank then blocklist for the primary
      domain, the same pair for each additional domain in list order, and
      the Facebook test last and only when a handle is given. */
  lemma PlanOrder(e: Entry)
    ensures var p := Plan(e);
            var ds := AdditionalDomains(e);
            && |p| == 2 + 2 * |ds| + (if HasFacebook(e) then 1 else 0)
            && p[0] == Step(RankTest(e.domain), Primary)
            && p[1] == Step(BlocklistTest(e.domain), Primary)
            && (forall k :: 0 <= k < |ds| ==>
                  && p[2 + 2 * k] == Step(RankTest(ds[k]), Additional)
                  && p[3 + 2 * k] == Step(BlocklistTest(ds[k]), Additional))
            && (HasFacebook(e) ==> p[|p| - 1] == Step(FacebookTest(e.facebook.value), Contact))
    ensures forall i :: 0 <= i < |Plan(e)| ==> (Plan(e)[i].role == Contact <==> Plan(e)[i].test.FacebookTest?)
    ensures (exists i :: 0 <= i < |Plan(e)| && Plan(e)[i].role == Contact) <==> HasFacebook(e)
  {
    var ds := AdditionalDomains(e);
    AdditionalStepsInOrder(ds);
    var p := Plan(e);
    var a := AdditionalSteps(ds);
    assert forall k :: 0 <= k < |ds| ==> p[2 + 2 * k] == a[2 * k] && p[3 + 2 * k] == a[2 * k + 1];
    forall i | 2 <= i < 2 + |a|
      ensures p[i].role == Additional && !p[i].test.FacebookTest?
    {
      var k := (i - 2) / 2;
      assert i == 2 + 2 * k || i == 3 + 2 * k;
    }
    if HasFacebook(e) {
      assert p[|p| - 1].role == Contact;
    }
  }

  /** The replies of every external service, the rank limit, and the number
      formatting of the over-limit message. */
  datatype Env = Env(
    rankReply: string -> Fetched<SimilarWeb.RankReply>,
    lists: Blocklist.ListSource,
    page: string -> Fetched<int>,
    rankLimit: int,
    format: int -> string)

  /** The process state a test can change. */
  datatype State = State(log: Logger, cache: Blocklist.Cache)

  datatype Ran = Ran(verdict: Verdict, state: State)

  function RankVerdict(d: string, env: Env): Verdict {
    match SimilarWeb.Rank(d, env.rankReply(d), env.rankLimit, env.format)
    case Ok(_) => Pass
    case Err(m) => Fail(m)
  }

  /** Awaiting one test: whether it settles or rejects, and the state after. */
  function Run(step: Step, env: Env, st: State): (r: Ran)
    ensures !step.test.BlocklistTest? ==> r.state == st
  {
    match step.test
    case RankTest(d) => Ran(RankVerdict(d, env), st)
    case BlocklistTest(d) =>
      var c := Blocklist.Check(d, st.log, st.cache, env.lists);
      Ran(c.verdict, State(c.log, c.cache))
    case FacebookTest(h) => Ran(Facebook.Probe(h, env.page(h)), st)
  }

  /** The verdict a test gets in a freshly started process. */
  function Outcome(t: Test, env: Env): Verdict {
    match t
    case RankTest(d) => RankVerdict(d, env)
    case BlocklistTest(d) => Blocklist.Check(d, Fresh, map[], env.lists).verdict
    case FacebookTest(h) => Facebook.Probe(h, env.page(h))
  }

  /** The add calls a test makes itself: only a passing blocklist test logs. */
  function OwnEvents(t: Test, env: Env): seq<Event> {
    if t.BlocklistTest? && Outcome(t, env).Pass?
    then [Message(Blocklist.CheckName, Blocklist.NotFoundMessage(t.domain))]
    else []
  }

  /** The blocklist verdict does not depend on the logger. */
  lemma BlocklistVerdictIgnoresLog(d: string, l1: Logger, l2: Logger, cache: Blocklist.Cache, source: Blocklist.ListSource)
    ensures Blocklist.Check(d, l1, cache, source).verdict == Blocklist.Check(d, l2, cache, source).verdict
  {
  }

  /** While the cache is coherent, a test behaves as in a fresh process: its
      verdict is `Outcome`, it appends exactly its own events, and the cache
      stays coherent. */
  lemma RunIsStateless(step: Step, env: Env, st: State)
    requires Blocklist.Coherent(st.cache, env.lists)
    ensures Run(step, env, st).verdict == Outcome(step.test, env)
    ensures Run(step, env, st).state.log == Replay(st.log, OwnEvents(step.test, env))
    ensures Blocklist.Coherent(Run(step, env, st).state.cache, env.lists)
  {
    if step.test.BlocklistTest? {
      var d := step.test.domain;
      Blocklist.CacheIsTransparent(d, st.log, st.cache, env.lists);
      BlocklistVerdictIgnoresLog(d, st.log, Fresh, map[], env.lists);
      var events := OwnEvents(step.test, env);
      if events != [] {
        assert Replay(st.log, events) == Replay(Apply(st.log, events[0]), []);
      }
    }
  }

  /** A response and the process state it leaves behind. */
  datatype Handled = Handled(response: Response, state: State)

  /** One test of the flattened schedule, with the file of its entry. */
  datatype Scheduled = Scheduled(file: string, step: Step)

  function Tagged(file: string, steps: seq<Step>): (s: seq<Scheduled>)
    ensures |s| == |steps|
    ensures forall i :: 0 <= i < |s| ==> s[i] == Scheduled(file, steps[i])
    decreases |steps|
  {
    if |steps| == 0 then [] else [Scheduled(file, steps[0])] + Tagged(file, steps[1..])
  }

  /** Every test of every entry, entry by entry, each entry in plan order. */
  function Schedule(entries: seq<Entry>): seq<Scheduled>
    decreases |entries|
  {
    if |entries| == 0 then [] else Tagged(entries[0].file, Plan(entries[0])) + Schedule(entries[1..])
  }

  /** The logger calls the tests of a schedule make themselves. */
  function Events(s: seq<Scheduled>, env: Env): seq<Event>
    decreases |s|
  {
    if |s| == 0 then [] else OwnEvents(s[0].step.test, env) + Events(s[1..], env)
  }
}
