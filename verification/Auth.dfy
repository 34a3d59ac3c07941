/** Topic authorization: which filters and topics an identity may use. */
module Auth {
  import opened Common
  import opened Strings
  import opened Zenoh
  import opened Topic
  import opened TopicTheorems
  import opened FilterCoverage

  datatype AclRule = AclRule(user: string, publish: seq<string>, subscribe: seq<string>)

  datatype Acl = Acl(rules: seq<AclRule>, defaultAllow: bool) {

    /** The rules that apply to `user`, in order. */
    function RulesFor(user: string): (r: seq<AclRule>)
      ensures forall rule :: rule in r <==> rule in rules && (rule.user == "*" || rule.user == user)
    {
      Applicable(rules, user)
    }

    predicate MayPublish(user: string, topic: string) {
      || defaultAllow
      || exists r, pat :: r in RulesFor(user) && pat in r.publish && TopicMatches(pat, topic)
    }

    predicate MaySubscribe(user: string, filter: string) {
      || defaultAllow
      || exists r, pat :: r in RulesFor(user) && pat in r.subscribe && FilterCovers(pat, filter)
    }
  }

  function Applicable(rules: seq<AclRule>, user: string): (r: seq<AclRule>)
    ensures forall rule :: rule in r <==> rule in rules && (rule.user == "*" || rule.user == user)
  {
    if rules == [] then []
    else
      var rest := Applicable(rules[1..], user);
      var r := if rules[0].user == "*" || rules[0].user == user then [rules[0]] + rest else rest;
      assert rules == [rules[0]] + rules[1..];
      r
  }

  /** Under the deny policy, everything a granted subscription forwards was granted: each key
      it selects surfaces as a topic matched by a subscribe pattern of a rule for this user. */
  lemma GrantedForwardsOnlyGranted(acl: Acl, user: string, f: string, scope: string, key: string, t: string)
    requires !acl.defaultAllow && acl.MaySubscribe(user, f)
    requires ValidFilter(f) && ConcreteKey(key) && (scope == "" || ConcreteKey(scope))
    requires KeyexprToTopic(key, scope) == Some(t)
    requires FilterToKeyexpr(f, scope).Ok? && KeyMatches(FilterToKeyexpr(f, scope).value, key)
    ensures exists r, pat ::
      && r in acl.rules && (r.user == "*" || r.user == user)
      && pat in r.subscribe && TopicMatches(pat, t)
  {
    ForwardsIff(f, scope, key, t);
    var r, pat :| r in acl.RulesFor(user) && pat in r.subscribe && FilterCovers(pat, f);
    CoverSound(pat, f, t);
  }

  /** More rules, more permissions. */
  lemma RulesOnlyGrant(acl: Acl, more: Acl, user: string, f: string, topic: string)
    requires acl.defaultAllow ==> more.defaultAllow
    requires forall r :: r in acl.rules ==> r in more.rules
    ensures acl.MaySubscribe(user, f) ==> more.MaySubscribe(user, f)
    ensures acl.MayPublish(user, topic) ==> more.MayPublish(user, topic)
  {
    if !acl.defaultAllow && acl.MaySubscribe(user, f) {
      var r, pat :| r in acl.RulesFor(user) && pat in r.subscribe && FilterCovers(pat, f);
      assert r in more.RulesFor(user);
    }
    if !acl.defaultAllow && acl.MayPublish(user, topic) {
      var r, pat :| r in acl.RulesFor(user) && pat in r.publish && TopicMatches(pat, topic);
      assert r in more.RulesFor(user);
    }
  }

  /** A refusal is never arbitrary: every valid pattern of the user misses some topic of the
      refused filter, the pair `+/#` and `#` aside. */
  lemma RefusalHasWitness(acl: Acl, user: string, f: string, r: AclRule, pat: string) returns (t: string)
    requires !acl.MaySubscribe(user, f)
    requires ValidFilter(f) && ValidFilter(pat) && !(pat == "+/#" && f == "#")
    requires r in acl.RulesFor(user) && pat in r.subscribe
    ensures t != "" && WildcardFree(t) && TopicMatches(f, t) && !TopicMatches(pat, t)
  {
    t := Uncovered(pat, f);
  }

  /** Patterns are weighed one at a time: `+` and `+/+/#` together match all that `+/#` does,
      yet granting both does not grant `+/#`. */
  lemma GrantsDoNotCombine(t: string)
    ensures var acl := Acl([AclRule("*", [], ["+", "+/+/#"])], false);
      && !acl.MaySubscribe("", "+/#")
      && (TopicMatches("+/#", t) ==> TopicMatches("+", t) || TopicMatches("+/+/#", t))
  {
    PlusHashSplit();
    SplitNoSep("+", '/');
    SplitConcat("+", "+/#", '/');
    assert "+" + "/" + "+/#" == "+/+/#";
    assert Split("+/+/#", '/') == ["+", "+", "#"];
    assert ["+", "#"][1..] == ["#"] && ["+"][1..] == [] && ["+", "+", "#"][1..] == ["+", "#"];
    var acl := Acl([AclRule("*", [], ["+", "+/+/#"])], false);
    forall r, pat | r in acl.RulesFor("") && pat in r.subscribe
      ensures !FilterCovers(pat, "+/#")
    {
      assert r in acl.rules;
    }
    var levels := Split(t, '/');
    if |levels| == 1 {
      assert levels[1..] == [];
      assert LevelsMatch(["+"], levels);
    } else {
      assert LevelsMatch(["+", "#"], levels[1..]);
      assert LevelsMatch(["+", "+", "#"], levels);
    }
  }

  // ---------------------------------------------------------------- what the answers mean

  /** Publishing is allowed exactly under the allow policy, or if some publish pattern of a rule
      for the user or for everyone agrees with the topic as section 4.7.1 of MQTT 3.1.1 says. */
  lemma MayPublishIff(acl: Acl, user: string, t: string)
    ensures acl.MayPublish(user, t) <==>
      || acl.defaultAllow
      || exists rule, pat ::
           && rule in acl.rules && (rule.user == "*" || rule.user == user) && pat in rule.publish
           && Agrees(pat, t)
  {
    forall pat
      ensures TopicMatches(pat, t) <==> Agrees(pat, t)
    {
      MatchesIffAgrees(pat, t);
    }
    if acl.MayPublish(user, t) && !acl.defaultAllow {
      var rule, pat :| rule in acl.RulesFor(user) && pat in rule.publish && TopicMatches(pat, t);
      assert rule in acl.rules && Agrees(pat, t);
    }
    forall rule, pat |
      && rule in acl.rules && (rule.user == "*" || rule.user == user) && pat in rule.publish
      && Agrees(pat, t)
      ensures acl.MayPublish(user, t)
    {
      assert rule in acl.RulesFor(user) && TopicMatches(pat, t);
    }
  }

  /** The pattern matches every topic that the filter matches. */
  ghost predicate Includes(pat: string, f: string) {
    forall t :: t != "" && WildcardFree(t) && TopicMatches(f, t) ==> TopicMatches(pat, t)
  }

  /** The converse of `GrantedForwardsOnlyGranted`: under either policy, a valid pattern that
      includes the filter grants it, the pair `+/#` and `#` aside. */
  lemma IncludedIsGranted(acl: Acl, user: string, f: string, rule: AclRule, pat: string)
    requires ValidFilter(f) && ValidFilter(pat) && !(pat == "+/#" && f == "#")
    requires rule in acl.rules && (rule.user == "*" || rule.user == user) && pat in rule.subscribe
    requires Includes(pat, f)
    ensures acl.MaySubscribe(user, f)
  {
    CoverIffInclusion(pat, f);
    assert rule in acl.RulesFor(user);
  }

  /** Subscribing is allowed exactly under the allow policy, or if some subscribe pattern of a
      rule for the user or for everyone includes the filter, the pair `+/#` and `#` aside. */
  lemma MaySubscribeIff(acl: Acl, user: string, f: string)
    requires ValidFilter(f)
    requires forall rule, pat :: rule in acl.rules && pat in rule.subscribe ==> ValidFilter(pat)
    ensures acl.MaySubscribe(user, f) <==>
      || acl.defaultAllow
      || exists rule, pat ::
           && rule in acl.rules && (rule.user == "*" || rule.user == user) && pat in rule.subscribe
           && !(pat == "+/#" && f == "#") && Includes(pat, f)
  {
    if acl.MaySubscribe(user, f) && !acl.defaultAllow {
      var rule, pat :| rule in acl.RulesFor(user) && pat in rule.subscribe && FilterCovers(pat, f);
      CoverIffInclusion(pat, f);
      assert rule in acl.rules && Includes(pat, f);
    }
    forall rule, pat |
      && rule in acl.rules && (rule.user == "*" || rule.user == user) && pat in rule.subscribe
      && !(pat == "+/#" && f == "#") && Includes(pat, f)
      ensures acl.MaySubscribe(user, f)
    {
      IncludedIsGranted(acl, user, f, rule, pat);
    }
  }

  /** The allow policy allows everything to everyone. */
  lemma AllowPolicy(acl: Acl, user: string, f: string, topic: string)
    ensures acl.defaultAllow ==> acl.MaySubscribe(user, f) && acl.MayPublish(user, topic)
    ensures !acl.defaultAllow && acl.rules == [] ==> !acl.MaySubscribe(user, f) && !acl.MayPublish(user, topic)
  {
  }
}
