/** The doctor's report (cli/src/report.rs): finding statuses, findings, and the
    process exit code a report gives. Printing the report is not modelled. */
module DoctorReport {

  /** The statuses, declared in the order `Ok`, `Warn`, `Fail`; the derived order
      follows the declaration. */
  datatype Status = Ok | Warn | Fail

  function Rank(s: Status): nat {
    match s
    case Ok => 0
    case Warn => 1
    case Fail => 2
  }

  /** The derived `Ord` on statuses. */
  predicate StatusLt(a: Status, b: Status) {
    Rank(a) < Rank(b)
  }

  /** `Ok < Warn < Fail`, and the order is total and strict. */
  lemma StatusOrder()
    ensures StatusLt(Ok, Warn) && StatusLt(Warn, Fail) && StatusLt(Ok, Fail)
    ensures forall a, b :: a == b || StatusLt(a, b) || StatusLt(b, a)
    ensures forall a :: !StatusLt(a, a)
  {
    forall a, b ensures a == b || StatusLt(a, b) || StatusLt(b, a) {
      match a
      case Ok =>
      case Warn =>
      case Fail =>
    }
  }

  datatype Finding = Finding(id: string, title: string, status: Status, details: string, meta: map<string, string>)

  datatype Report = Report(root: string, counts: map<string, nat>, findings: seq<Finding>)

  /** `finding`: a finding with the given fields and no metadata. */
  function MakeFinding(id: string, title: string, status: Status, details: string): (f: Finding)
    ensures f.id == id && f.title == title && f.status == status && f.details == details
    ensures f.meta == map[]
  {
    Finding(id, title, status, details, map[])
  }

  /** Some finding has the status (`iter().any`). */
  predicate HasStatus(findings: seq<Finding>, s: Status) {
    exists i :: 0 <= i < |findings| && findings[i].status == s
  }

  /** `exit_code`: 2 for a failure, or for a warning in strict mode; 1 for a
      warning otherwise; 0 when neither occurs. */
  function ExitCode(report: Report, strict: bool): (r: int)
    ensures r == 0 || r == 1 || r == 2
  {
    var hasFail := HasStatus(report.findings, Fail);
    var hasWarn := HasStatus(report.findings, Warn);
    if hasFail then 2
    else if strict && hasWarn then 2
    else if hasWarn then 1
    else 0
  }

  /** Under each mode, the exit code by the worst status among the findings. */
  lemma ExitCodeCases(report: Report, strict: bool)
    ensures HasStatus(report.findings, Fail) ==> ExitCode(report, strict) == 2
    ensures strict && HasStatus(report.findings, Warn) ==> ExitCode(report, strict) == 2
    ensures !strict && HasStatus(report.findings, Warn) && !HasStatus(report.findings, Fail) ==>
      ExitCode(report, strict) == 1
    ensures ExitCode(report, strict) == 0 <==>
      !HasStatus(report.findings, Warn) && !HasStatus(report.findings, Fail)
  {
  }

  /** Strict mode never lowers the exit code. */
  lemma StrictNotLower(report: Report)
    ensures ExitCode(report, false) <= ExitCode(report, true)
  {
  }

  /** The number of findings with the status. */
  function CountStatus(findings: seq<Finding>, s: Status): (r: nat)
    ensures r <= |findings|
  {
    if findings == [] then 0
    else CountStatus(findings[..|findings| - 1], s) + (if findings[|findings| - 1].status == s then 1 else 0)
  }

  /** A status occurs exactly when its count is positive. */
  lemma {:induction false} CountStatusPositive(findings: seq<Finding>, s: Status)
    ensures CountStatus(findings, s) > 0 <==> HasStatus(findings, s)
  {
    if findings != [] {
      var init := findings[..|findings| - 1];
      CountStatusPositive(init, s);
      if HasStatus(init, s) {
        var i :| 0 <= i < |init| && init[i].status == s;
        assert findings[i] == init[i];
      }
      if HasStatus(findings, s) && findings[|findings| - 1].status != s {
        var i :| 0 <= i < |findings| && findings[i].status == s;
        assert init[i] == findings[i];
      }
    }
  }

  /** Every finding has exactly one of the three statuses. */
  lemma {:induction false} CountStatusSum(findings: seq<Finding>)
    ensures CountStatus(findings, Ok) + CountStatus(findings, Warn) + CountStatus(findings, Fail) == |findings|
  {
    if findings != [] {
      CountStatusSum(findings[..|findings| - 1]);
    }
  }
}
