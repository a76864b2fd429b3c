/** Ordered keyword rules: a list of (keywords, code) pairs tried top to bottom
    against a lower-cased text, the first group with a keyword occurring in the
    text deciding the code. Both the opportunity-type classifier and the
    domain-classifier fallback are written this way. */
module KeywordRules {
  import opened Text

  datatype Rule = Rule(keywords: seq<string>, code: string)

  /** `any(kw in t for kw in keywords)` */
  predicate AnyKeyword(t: string, keywords: seq<string>)
  {
    |keywords| > 0 && (Contains(t, keywords[0]) || AnyKeyword(t, keywords[1..]))
  }

  /** `AnyKeyword` holds exactly when some listed keyword occurs in the text. */
  lemma {:induction false} AnyKeywordSome(t: string, keywords: seq<string>)
    ensures AnyKeyword(t, keywords) <==> exists k :: k in keywords && Contains(t, k)
  {
    if |keywords| > 0 {
      AnyKeywordSome(t, keywords[1..]);
      if Contains(t, keywords[0]) {
        assert keywords[0] in keywords;
      } else if exists k :: k in keywords && Contains(t, k) {
        var k :| k in keywords && Contains(t, k);
        assert k in keywords[1..];
      }
    }
  }

  /** Naming one keyword that occurs is enough. */
  lemma KeywordOccurs(t: string, keywords: seq<string>, i: int)
    requires 0 <= i < |keywords| && Contains(t, keywords[i])
    ensures AnyKeyword(t, keywords)
  {
    AnyKeywordSome(t, keywords);
    assert keywords[i] in keywords;
  }

  /** No listed keyword occurs. */
  lemma NoKeywordOccurs(t: string, keywords: seq<string>)
    requires forall i :: 0 <= i < |keywords| ==> !Contains(t, keywords[i])
    ensures !AnyKeyword(t, keywords)
  {
    AnyKeywordSome(t, keywords);
  }

  /** The group hits the text. */
  predicate Hits(t: string, rules: seq<Rule>, g: int)
    requires 0 <= g < |rules|
  {
    AnyKeyword(t, rules[g].keywords)
  }

  /** The code of the first rule whose group hits `t`, or `fallback`. */
  function FirstMatch(t: string, rules: seq<Rule>, fallback: string): (code: string)
    ensures code == fallback || exists g :: 0 <= g < |rules| && rules[g].code == code
  {
    if rules == [] then fallback
    else if AnyKeyword(t, rules[0].keywords) then rules[0].code
    else
      var r := FirstMatch(t, rules[1..], fallback);
      assert r != fallback ==> exists g :: 0 <= g < |rules[1..]| && rules[1..][g].code == r;
      assert forall g :: 0 <= g < |rules[1..]| ==> rules[1..][g] == rules[g + 1];
      r
  }

  /** First match wins: the result is the code of the earliest group that hits,
      and the fallback exactly when no group hits. */
  lemma {:induction false} FirstMatchIsEarliest(t: string, rules: seq<Rule>, fallback: string, g: int)
    requires 0 <= g < |rules|
    requires Hits(t, rules, g)
    requires forall h :: 0 <= h < g ==> !Hits(t, rules, h)
    ensures FirstMatch(t, rules, fallback) == rules[g].code
  {
    if g > 0 {
      assert !Hits(t, rules, 0);
      forall h | 0 <= h < g - 1 ensures !Hits(t, rules[1..], h) {
        assert !Hits(t, rules, h + 1);
      }
      FirstMatchIsEarliest(t, rules[1..], fallback, g - 1);
    }
  }

  lemma {:induction false} FirstMatchNoHit(t: string, rules: seq<Rule>, fallback: string)
    requires forall h :: 0 <= h < |rules| ==> !Hits(t, rules, h)
    ensures FirstMatch(t, rules, fallback) == fallback
  {
    if rules != [] {
      assert !Hits(t, rules, 0);
      forall h | 0 <= h < |rules| - 1 ensures !Hits(t, rules[1..], h) {
        assert !Hits(t, rules, h + 1);
      }
      FirstMatchNoHit(t, rules[1..], fallback);
    }
  }
}
