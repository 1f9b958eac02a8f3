/**
 * What teaching a profile fact comes to, said of the texts themselves: when two keys are one, when a value only repeats
 * what is known, and how far confidence can move.
 */
module ProfileOutcomes {
  import opened Wrappers
  import opened Text
  import opened ProfileFacts

  /** The same text but for the case of its letters and the white space around it. */
  ghost predicate SaysTheSame(a: string, b: string) {
    exists a', b' :: IsCore(a', a) && IsCore(b', b) && SameLetters(a', b')
  }

  lemma RepeatsIff(a: string, b: string)
    ensures SameValue(a, b) <==> SaysTheSame(a, b)
  {
    OneCore(Trim(a), a);
    OneCore(Trim(b), b);
    LowerForgetsCase(Trim(a), Trim(b));
    if a', b' :| IsCore(a', a) && IsCore(b', b) && SameLetters(a', b') {
      OneCore(a', a);
      OneCore(b', b);
    }
  }

  /** Two keys are one exactly when their users are, and their letters but for case. */
  lemma KeysAreOneIff(user: string, key: string, user': string, key': string)
    ensures KeyOf(user, key) == KeyOf(user', key') <==> user == user' && SameLetters(key, key')
  {
    LowerForgetsCase(key, key');
  }

  /** What the profile says after a lesson. */
  ghost predicate IsTaught(facts: Facts, k: Key, e: Entry, facts': Facts) {
    && facts'.Keys == facts.Keys + {k} && (forall other <- facts :: other != k ==> facts'[other] == facts[other])
    && if k in facts && SaysTheSame(facts[k].value, e.value) then
         && facts'[k].value == facts[k].value
         && facts'[k].confidence >= facts[k].confidence && facts'[k].confidence >= e.confidence
         && (facts'[k].confidence == facts[k].confidence || facts'[k].confidence == e.confidence)
       else facts'[k] == e
  }

  /**
   * A lesson about a fact already known in other letters or spacing keeps the wording and can only raise the
   * confidence; any other lesson is taken as it is. No other fact changes.
   */
  lemma LessonMeansThis(facts: Facts, k: Key, e: Entry)
    ensures IsTaught(facts, k, e, Upserted(facts, k, e))
  {
    if k in facts { RepeatsIff(facts[k].value, e.value); }
  }
}
