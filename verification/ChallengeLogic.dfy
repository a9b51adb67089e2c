/** One-challenge guardrail (core/cognition/challenge_logic.py). */
module ChallengeLogics {
  import opened Text
  import opened ReasoningText

  type ChallengeKey = (nat, string)

  datatype Challenges = Challenges(challenged: set<ChallengeKey>, rejected: set<ChallengeKey>)

  /** Lower case, stripped, single blanks. */
  function ActionKey(action: string): string { Compact(Strip(Lower(action))) }

  /** Is this action challenged now? */
  predicate Challenged(s: Challenges, threshold: real, task: nat, action: string, score: real, overrode: bool) {
    var key := (task, ActionKey(action));
    !overrode && key !in s.rejected && key !in s.challenged && score < threshold
  }

  function Note(s: Challenges, threshold: real, task: nat, action: string, score: real, overrode: bool): Challenges {
    if !Challenged(s, threshold, task, action, score, overrode) then s
    else s.(challenged := s.challenged + {(task, ActionKey(action))})
  }

  class ChallengeLogic {
    const threshold: real
    var challengedKeys: set<ChallengeKey>
    var rejectedKeys: set<ChallengeKey>

    ghost function View(): Challenges
      reads this
    {
      Challenges(challengedKeys, rejectedKeys)
    }

    constructor (t: real)
      requires 0.0 <= t <= 1.0
      ensures threshold == t && View() == Challenges({}, {})
    {
      threshold := t;
      challengedKeys, rejectedKeys := {}, {};
    }

    method Evaluate(task: nat, action: string, score: real, overrode: bool) returns (challenge: bool)
      modifies this`challengedKeys
      ensures challenge == Challenged(old(View()), threshold, task, action, score, overrode)
      ensures View() == Note(old(View()), threshold, task, action, score, overrode)
    {
      var key := (task, ActionKey(action));
      if overrode {
        return false;
      }
      if key in rejectedKeys {
        return false;
      }
      if key in challengedKeys {
        return false;
      }
      if score >= threshold {
        return false;
      }
      challengedKeys := challengedKeys + {key};
      return true;
    }

    method RecordResponse(task: nat, action: string, accepted: bool)
      modifies this`rejectedKeys
      ensures rejectedKeys == if accepted then old(rejectedKeys) else old(rejectedKeys) + {(task, ActionKey(action))}
    {
      if !accepted {
        rejectedKeys := rejectedKeys + {(task, ActionKey(action))};
      }
    }
  }
}
