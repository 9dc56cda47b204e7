/**
 * Diagnostics (compiler/src/problem.rs): a Warning or Fatal record with a
 * message, an attribution and an optional cross-reference. Passes append
 * problems to a list and carry on.
 */
module Problems {
  import opened Common
  import opened Attributions

  datatype Level = Warning | Fatal

  datatype Context = Context(message: string, attribution: Attribution)

  datatype Problem = Problem(level: Level, message: string, attribution: Attribution, context: Option<Context>)

  function NewWarning(message: string, attribution: Attribution): (p: Problem)
    ensures p.level == Warning && p.message == message && p.attribution == attribution
    ensures p.context == None
  {
    Problem(Warning, message, attribution, None)
  }

  function NewFatal(message: string, attribution: Attribution): (p: Problem)
    ensures p.level == Fatal && p.message == message && p.attribution == attribution
    ensures p.context == None
  {
    Problem(Fatal, message, attribution, None)
  }

  function WithContext(p: Problem, message: string, attribution: Attribution): (r: Problem)
    ensures r.level == p.level && r.message == p.message && r.attribution == p.attribution
    ensures r.context == Some(Context(message, attribution))
  {
    Problem(p.level, p.message, p.attribution, Some(Context(message, attribution)))
  }

  /** A warning and a fatal with the same message and place differ only in level. */
  lemma WarningIsFatalAtOtherLevel(message: string, attribution: Attribution)
    ensures NewWarning(message, attribution) == NewFatal(message, attribution).(level := Warning)
  {
  }

  /** Attaching a context discards any context attached before. */
  lemma WithContextReplaces(p: Problem, m1: string, a1: Attribution, m2: string, a2: Attribution)
    ensures WithContext(WithContext(p, m1, a1), m2, a2) == WithContext(p, m2, a2)
  {
  }

  // ---------------------------------------------------------------------
  // The append-only problem list

  /** `after` extends `before`, and the problems added are all fatal. */
  predicate AddsFatals(before: seq<Problem>, after: seq<Problem>)
  {
    IsPrefix(before, after) && forall i :: |before| <= i < |after| ==> after[i].level == Fatal
  }

  lemma AddsFatalsTrans(a: seq<Problem>, b: seq<Problem>, c: seq<Problem>)
    requires AddsFatals(a, b) && AddsFatals(b, c)
    ensures AddsFatals(a, c)
  {
    assert c[..|a|] == c[..|b|][..|a|];
  }

  lemma FatalsAdded(problems: seq<Problem>, more: seq<Problem>)
    requires forall i :: 0 <= i < |more| ==> more[i].level == Fatal
    ensures AddsFatals(problems, problems + more)
  {
    assert (problems + more)[..|problems|] == problems;
  }

  lemma FatalAdded(problems: seq<Problem>, p: Problem)
    requires p.level == Fatal
    ensures AddsFatals(problems, problems + [p])
  {
    assert (problems + [p])[..|problems|] == problems;
  }
}
