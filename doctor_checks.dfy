/** `run_checks` of the doctor (cli/src/checks/mod.rs): the targets a request
    expands to, the findings of each target one after another, and the count of
    findings per status. What each probe finds on disk is a parameter. */
module DoctorChecks {
  import opened DoctorReport

  datatype Target = All | Nginx | Pm2 | Build | Env | Ci | Runtime

  /** The targets a request runs: every check for `All`, else the one asked for. */
  function Targets(t: Target): (r: seq<Target>)
    ensures t == All ==> r == [Nginx, Pm2, Build, Env, Ci, Runtime]
    ensures t != All ==> r == [t]
    ensures All !in r
  {
    if t == All then [Nginx, Pm2, Build, Env, Ci, Runtime] else [t]
  }

  /** The findings of the targets, in target order. */
  function FindingsOf(targets: seq<Target>, probe: Target -> seq<Finding>): seq<Finding> {
    if targets == [] then []
    else
      var t := targets[|targets| - 1];
      FindingsOf(targets[..|targets| - 1], probe) + (if t == All then [] else probe(t))
  }

  /** The status keys of the counts map: the lower-cased variant names. */
  function StatusKey(s: Status): string {
    match s
    case Ok => "ok"
    case Warn => "warn"
    case Fail => "fail"
  }

  /** The counts map of a list of findings. */
  function CountsOf(findings: seq<Finding>): map<string, nat> {
    map["ok" := CountStatus(findings, Ok), "warn" := CountStatus(findings, Warn), "fail" := CountStatus(findings, Fail)]
  }

  /** The counts map before any finding is counted: a zero for each status. */
  function ZeroCounts(statuses: seq<Status>): map<string, nat> {
    if statuses == [] then map[]
    else ZeroCounts(statuses[..|statuses| - 1])[StatusKey(statuses[|statuses| - 1]) := 0]
  }

  lemma ZeroCountsAll()
    ensures ZeroCounts([Ok, Warn, Fail]) == CountsOf([])
  {
    assert [Ok, Warn, Fail][..2] == [Ok, Warn];
    assert [Ok, Warn][..1] == [Ok];
    assert [Ok][..0] == [];
  }

  /** Counting one more finding adds one to the count of its status. */
  lemma CountsOfSnoc(findings: seq<Finding>, i: nat)
    requires i < |findings|
    ensures var c := CountsOf(findings[..i]);
      var k := StatusKey(findings[i].status);
      k in c && CountsOf(findings[..i + 1]) == c[k := c[k] + 1]
  {
    assert findings[..i + 1][..i] == findings[..i];
  }

  /** Counting the findings one by one, as the second loop does. */
  method CountFindings(findings: seq<Finding>) returns (counts: map<string, nat>)
    ensures counts == CountsOf(findings)
  {
    counts := map[];
    var statuses := [Ok, Warn, Fail];
    for j := 0 to 3
      invariant counts == ZeroCounts(statuses[..j])
    {
      assert statuses[..j + 1][..j] == statuses[..j];
      counts := counts[StatusKey(statuses[j]) := 0];
    }
    assert statuses[..3] == statuses;
    ZeroCountsAll();
    var i := 0;
    while i < |findings|
      invariant 0 <= i <= |findings|
      invariant counts == CountsOf(findings[..i])
    {
      CountsOfSnoc(findings, i);
      var k := StatusKey(findings[i].status);
      counts := counts[k := counts[k] + 1];
      i := i + 1;
    }
    assert findings[..|findings|] == findings;
  }

  /** `run_checks`: the findings of every target of the request, with their counts. */
  method RunChecks(target: Target, root: string, probe: Target -> seq<Finding>) returns (report: Report)
    ensures report.root == root
    ensures report.findings == FindingsOf(Targets(target), probe)
    ensures report.counts == CountsOf(report.findings)
  {
    var targets := Targets(target);
    var findings: seq<Finding> := [];
    for i := 0 to |targets|
      invariant findings == FindingsOf(targets[..i], probe)
    {
      assert targets[..i + 1][..i] == targets[..i];
      var t := targets[i];
      if t != All {
        findings := findings + probe(t);
      }
    }
    assert targets[..|targets|] == targets;
    var counts := CountFindings(findings);
    report := Report(root, counts, findings);
  }

  /** The counts have the keys `ok`, `warn` and `fail` and no other, each the
      number of findings with that status, and together they count every finding. */
  lemma CountsShape(findings: seq<Finding>)
    ensures CountsOf(findings).Keys == {"ok", "warn", "fail"}
    ensures forall s :: CountsOf(findings)[StatusKey(s)] == CountStatus(findings, s)
    ensures CountsOf(findings)["ok"] + CountsOf(findings)["warn"] + CountsOf(findings)["fail"] == |findings|
  {
    CountStatusSum(findings);
    forall s ensures CountsOf(findings)[StatusKey(s)] == CountStatus(findings, s) {
      match s
      case Ok =>
      case Warn =>
      case Fail =>
    }
  }

  /** Findings of a list of targets followed by another list come in that order. */
  lemma {:induction false} FindingsOfAppend(a: seq<Target>, b: seq<Target>, probe: Target -> seq<Finding>)
    ensures FindingsOf(a + b, probe) == FindingsOf(a, probe) + FindingsOf(b, probe)
  {
    if b != [] {
      var init := b[..|b| - 1];
      FindingsOfAppend(a, init, probe);
      assert (a + b)[..|a + b| - 1] == a + init;
    } else {
      assert a + b == a;
    }
  }

  /** A single target contributes its own probe's findings. */
  lemma FindingsOfOne(t: Target, probe: Target -> seq<Finding>)
    requires t != All
    ensures FindingsOf([t], probe) == probe(t)
  {
    assert [t][..0] == [];
  }

  /** Running `All` gives the six reports in order (`Nginx` first, `Runtime` last). */
  lemma FindingsOfAll(probe: Target -> seq<Finding>)
    ensures FindingsOf(Targets(All), probe) ==
      probe(Nginx) + probe(Pm2) + probe(Build) + probe(Env) + probe(Ci) + probe(Runtime)
  {
    var ts := [Nginx, Pm2, Build, Env, Ci, Runtime];
    assert ts == [Nginx] + [Pm2] + [Build] + [Env] + [Ci] + [Runtime];
    FindingsOfAppend([Nginx] + [Pm2] + [Build] + [Env] + [Ci], [Runtime], probe);
    FindingsOfAppend([Nginx] + [Pm2] + [Build] + [Env], [Ci], probe);
    FindingsOfAppend([Nginx] + [Pm2] + [Build], [Env], probe);
    FindingsOfAppend([Nginx] + [Pm2], [Build], probe);
    FindingsOfAppend([Nginx], [Pm2], probe);
    FindingsOfOne(Nginx, probe);
    FindingsOfOne(Pm2, probe);
    FindingsOfOne(Build, probe);
    FindingsOfOne(Env, probe);
    FindingsOfOne(Ci, probe);
    FindingsOfOne(Runtime, probe);
  }
}
