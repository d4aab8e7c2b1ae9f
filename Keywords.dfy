/**
 * Reference definitions for the keyword classifiers: a table of rules, each a
 * list of keywords and an outcome, read either first-match-wins (an if/else-if
 * chain) or last-match-wins (a loop that overwrites its result on every hit).
 * The classifiers themselves are written as the source writes them, as chains
 * and loops; lemmas beside them prove they agree with these tables.
 */
module Keywords {
  import opened Wrappers
  import opened Text

  datatype Rule<T> = Rule(keywords: seq<string>, outcome: T)

  /** Some keyword of the list occurs in `text`. */
  predicate AnyIn(keywords: seq<string>, text: string)
  {
    exists k :: k in keywords && Contains(text, k)
  }

  /** The index of the first rule with a keyword in `text`. */
  function FirstMatch<T>(rules: seq<Rule<T>>, text: string): (r: Option<nat>)
    ensures r.Some? ==> r.value < |rules| && AnyIn(rules[r.value].keywords, text)
    ensures r.Some? ==> forall j :: 0 <= j < r.value ==> !AnyIn(rules[j].keywords, text)
    ensures r.None? <==> forall j :: 0 <= j < |rules| ==> !AnyIn(rules[j].keywords, text)
  {
    if rules == [] then None
    else if AnyIn(rules[0].keywords, text) then Some(0)
    else match FirstMatch(rules[1..], text)
      case None => None
      case Some(i) => Some(i + 1)
  }

  /** The outcome of the first matching rule, `default` when none matches. */
  function Classify<T>(rules: seq<Rule<T>>, default: T, text: string): T
  {
    match FirstMatch(rules, text)
    case Some(i) => rules[i].outcome
    case None => default
  }

  /** A table is read from its first rule: that rule's outcome if it matches, else the rest of the table. */
  lemma ClassifyStep<T>(rules: seq<Rule<T>>, default: T, text: string)
    requires rules != []
    ensures Classify(rules, default, text)
         == if AnyIn(rules[0].keywords, text) then rules[0].outcome else Classify(rules[1..], default, text)
  {
    if !AnyIn(rules[0].keywords, text) {
      match FirstMatch(rules[1..], text)
      case Some(i) => assert rules[1..][i] == rules[i + 1];
      case None =>
    }
  }

  /** A keyword list matches when its head occurs or its tail matches. */
  lemma AnyInStep(keywords: seq<string>, text: string)
    requires keywords != []
    ensures AnyIn(keywords, text) <==> Contains(text, keywords[0]) || AnyIn(keywords[1..], text)
  {
    if AnyIn(keywords, text) && !Contains(text, keywords[0]) {
      var k :| k in keywords && Contains(text, k);
      assert k in keywords[1..];
    }
    if AnyIn(keywords[1..], text) {
      var k :| k in keywords[1..] && Contains(text, k);
      assert k in keywords;
    }
  }

  /** A table of four rules is an if/else-if chain of four tests. */
  lemma Classify4<T>(r0: Rule<T>, r1: Rule<T>, r2: Rule<T>, r3: Rule<T>, default: T, text: string)
    ensures Classify([r0, r1, r2, r3], default, text)
         == if AnyIn(r0.keywords, text) then r0.outcome
            else if AnyIn(r1.keywords, text) then r1.outcome
            else if AnyIn(r2.keywords, text) then r2.outcome
            else if AnyIn(r3.keywords, text) then r3.outcome
            else default
  {
    var rules := [r0, r1, r2, r3];
    ClassifyStep(rules, default, text);
    ClassifyStep(rules[1..], default, text);
    ClassifyStep(rules[2..], default, text);
    ClassifyStep(rules[3..], default, text);
    assert rules[1..][1..] == rules[2..] && rules[2..][1..] == rules[3..] && rules[3..][1..] == [];
  }

  /** A table of `r0` followed by four more rules is the test of `r0`, then the four-rule chain. */
  lemma Classify5<T>(r0: Rule<T>, r1: Rule<T>, r2: Rule<T>, r3: Rule<T>, r4: Rule<T>, default: T, text: string)
    ensures Classify([r0, r1, r2, r3, r4], default, text)
         == if AnyIn(r0.keywords, text) then r0.outcome else Classify([r1, r2, r3, r4], default, text)
  {
    var rules := [r0, r1, r2, r3, r4];
    ClassifyStep(rules, default, text);
    assert rules[1..] == [r1, r2, r3, r4];
  }

  /** A table of eight rules is the chain of its first four, falling through to its last four. */
  lemma Classify8<T>(r0: Rule<T>, r1: Rule<T>, r2: Rule<T>, r3: Rule<T>,
                     r4: Rule<T>, r5: Rule<T>, r6: Rule<T>, r7: Rule<T>, default: T, text: string)
    ensures Classify([r0, r1, r2, r3, r4, r5, r6, r7], default, text)
         == Classify([r0, r1, r2, r3], Classify([r4, r5, r6, r7], default, text), text)
  {
    var rules := [r0, r1, r2, r3, r4, r5, r6, r7];
    var tail := [r4, r5, r6, r7];
    Classify4(r0, r1, r2, r3, Classify(tail, default, text), text);
    ClassifyStep(rules, default, text);
    ClassifyStep(rules[1..], default, text);
    ClassifyStep(rules[2..], default, text);
    ClassifyStep(rules[3..], default, text);
    assert rules[1..][1..] == rules[2..] && rules[2..][1..] == rules[3..] && rules[3..][1..] == tail;
  }

  /** Keyword lists of one to four keywords match when one of their keywords occurs. */
  lemma AnyInSmall(text: string, a: string, b: string, c: string, d: string)
    ensures AnyIn([a], text) <==> Contains(text, a)
    ensures AnyIn([a, b], text) <==> Contains(text, a) || Contains(text, b)
    ensures AnyIn([a, b, c], text) <==> Contains(text, a) || Contains(text, b) || Contains(text, c)
    ensures AnyIn([a, b, c, d], text) <==> Contains(text, a) || Contains(text, b) || Contains(text, c) || Contains(text, d)
  {
    assert a in [a] && a in [a, b] && a in [a, b, c] && a in [a, b, c, d];
    assert b in [a, b] && b in [a, b, c] && b in [a, b, c, d];
    assert c in [a, b, c] && c in [a, b, c, d];
    assert d in [a, b, c, d];
  }

  /** The index of the last keyword of the list that occurs in `text`. */
  function LastMatch(keywords: seq<string>, text: string): (r: Option<nat>)
    ensures r.Some? ==> r.value < |keywords| && Contains(text, keywords[r.value])
    ensures r.Some? ==> forall j :: r.value < j < |keywords| ==> !Contains(text, keywords[j])
    ensures r.None? <==> forall j :: 0 <= j < |keywords| ==> !Contains(text, keywords[j])
  {
    if keywords == [] then None
    else if Contains(text, keywords[|keywords| - 1]) then Some(|keywords| - 1)
    else LastMatch(keywords[..|keywords| - 1], text)
  }
}
