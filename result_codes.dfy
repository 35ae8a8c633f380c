/** The handlers answer a request with a small signed result code chosen by a chain of checks:
    the code of the first check that fails, or 0 when every check passes. */
module ResultCodes {

  /** One validation step: whether it passes, and the code reported when it does not. */
  datatype Check = Check(passes: bool, code: int)

  /** The code of the first failing check, or 0 if none fails. */
  function FirstFailure(checks: seq<Check>): (r: int)
    ensures (forall i :: 0 <= i < |checks| ==> checks[i].passes) ==> r == 0
  {
    if checks == [] then 0
    else if !checks[0].passes then checks[0].code
    else FirstFailure(checks[1..])
  }

  /** One step of the evaluation, read on a suffix of the list. */
  lemma FirstFailureFrom(checks: seq<Check>, i: nat)
    requires i < |checks|
    ensures FirstFailure(checks[i..]) ==
            if checks[i].passes then FirstFailure(checks[i + 1..]) else checks[i].code
  {
    assert checks[i..][1..] == checks[i + 1..];
  }

  /** Every check carries a non-zero code. */
  ghost predicate NonZeroCodes(checks: seq<Check>) {
    forall i :: 0 <= i < |checks| ==> checks[i].code != 0
  }

  /** With non-zero codes, the result is 0 exactly when every check passes; otherwise it is the
      code of some failing check that every earlier check passed. */
  lemma {:induction false} FirstFailureSpec(checks: seq<Check>)
    requires NonZeroCodes(checks)
    ensures FirstFailure(checks) == 0 <==> forall i :: 0 <= i < |checks| ==> checks[i].passes
    ensures FirstFailure(checks) != 0 ==>
              exists i :: 0 <= i < |checks| && !checks[i].passes && checks[i].code == FirstFailure(checks) &&
                          forall j :: 0 <= j < i ==> checks[j].passes
  {
    if checks != [] {
      assert NonZeroCodes(checks[1..]);
      FirstFailureSpec(checks[1..]);
      if checks[0].passes && FirstFailure(checks) != 0 {
        var i :| 0 <= i < |checks[1..]| && !checks[1..][i].passes &&
                 checks[1..][i].code == FirstFailure(checks[1..]) &&
                 forall j :: 0 <= j < i ==> checks[1..][j].passes;
        assert !checks[i + 1].passes && checks[i + 1].code == FirstFailure(checks);
        assert forall j :: 0 <= j < i + 1 ==> checks[j].passes by {
          forall j | 0 <= j < i + 1 ensures checks[j].passes {
            if j > 0 { assert checks[j] == checks[1..][j - 1]; }
          }
        }
      }
      if FirstFailure(checks) == 0 {
        forall i | 0 <= i < |checks| ensures checks[i].passes {
          if i > 0 { assert checks[i] == checks[1..][i - 1]; }
        }
      }
    }
  }
}
