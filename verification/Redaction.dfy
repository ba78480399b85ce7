/**
 Redaction of captured payloads. A rule is a dotted path with an action, and the rules of a
 policy are applied one after another in whatever order the map yields them. The payload is
 a tree of maps.
 */
module Redaction {
  import opened Results

  datatype Action = Drop | Mask

  /** The keys below the scope, and what to do there. */
  datatype Rule = Rule(path: seq<string>, action: Action)

  datatype Value = Atom(value: string) | Node(entries: map<string, Value>)

  const WILDCARD := "*"

  // ---- One rule ----

  function Replaced(entries: map<string, Value>, keys: set<string>, action: Action, mask: string): map<string, Value> {
    match action
    case Drop => entries - keys
    case Mask => map k | k in entries :: if k in keys then Atom(mask) else entries[k]
  }

  /** The keys a one-part path names. */
  function Named(entries: map<string, Value>, key: string): set<string> {
    if key == WILDCARD then entries.Keys else entries.Keys * {key}
  }

  function Apply(value: Value, rule: Rule, mask: string): Value
    decreases |rule.path|
  {
    if value.Atom? || rule.path == [] then value
    else if |rule.path| == 1 then Node(Replaced(value.entries, Named(value.entries, rule.path[0]), rule.action, mask))
    else if rule.path[0] !in value.entries then value
    else
      var child := Apply(value.entries[rule.path[0]], Rule(rule.path[1..], rule.action), mask);
      Node(value.entries[rule.path[0] := child])
  }

  lemma ApplyAt(value: Value, rule: Rule, mask: string, key: string)
    requires value.Node? && |rule.path| != 1
    ensures var result := Apply(value, rule, mask);
            && result.Node? && result.entries.Keys == value.entries.Keys
            && (key in value.entries ==>
                  result.entries[key] ==
                  if rule.path != [] && rule.path[0] == key
                  then Apply(value.entries[key], Rule(rule.path[1..], rule.action), mask) else value.entries[key])
  {}

  // ---- All rules at once, with no order ----

  predicate Hit(rules: set<Rule>, key: string, action: Action) {
    Rule([key], action) in rules || Rule([WILDCARD], action) in rules
  }

  /** The rules that go on below this key. */
  function Below(rules: set<Rule>, key: string): set<Rule> {
    set rule | rule in rules && |rule.path| >= 2 && rule.path[0] == key :: Rule(rule.path[1..], rule.action)
  }

  /** Dropping wins over masking, and either wins over what a longer path says. */
  function Redacted(value: Value, rules: set<Rule>, mask: string): Value
    decreases value
  {
    match value
    case Atom(_) => value
    case Node(entries) =>
      Node(map k | k in entries && !Hit(rules, k, Drop) ::
             if Hit(rules, k, Mask) then Atom(mask) else Redacted(entries[k], Below(rules, k), mask))
  }

  /** What becomes of one key. */
  lemma RedactedAt(value: Value, rules: set<Rule>, mask: string, key: string)
    requires value.Node?
    ensures var result := Redacted(value, rules, mask);
            && result.Node?
            && (key in result.entries <==> key in value.entries && !Hit(rules, key, Drop))
            && (key in result.entries ==>
                  result.entries[key] ==
                  if Hit(rules, key, Mask) then Atom(mask) else Redacted(value.entries[key], Below(rules, key), mask))
  {
    hide Hit, Below;
  }

  lemma {:induction false} NoRules(value: Value, mask: string)
    ensures Redacted(value, {}, mask) == value
    decreases value
  {
    if value.Node? {
      forall k | k in value.entries ensures Redacted(value.entries[k], Below({}, k), mask) == value.entries[k] {
        assert Below({}, k) == {};
        NoRules(value.entries[k], mask);
      }
      assert Redacted(value, {}, mask).entries == value.entries;
    }
  }

  /** A rule that ends here decides about the keys it names and changes nothing below. */
  lemma EndingRule(value: Value, rules: set<Rule>, rule: Rule, mask: string)
    requires value.Node? && |rule.path| == 1
    ensures Apply(Redacted(value, rules, mask), rule, mask) == Redacted(value, rules + {rule}, mask)
  {
    var all := rules + {rule};
    var before, after := Redacted(value, rules, mask), Redacted(value, all, mask);
    var result := Apply(before, rule, mask);
    assert rule.path == [rule.path[0]];
    forall k: string
      ensures k in result.entries <==> k in after.entries
      ensures k in after.entries ==> result.entries[k] == after.entries[k]
    {
      HitGrows(rules, rule, k, Drop);
      HitGrows(rules, rule, k, Mask);
      BelowGrows(rules, rule, k);
      RedactedAt(value, rules, mask, k);
      RedactedAt(value, all, mask, k);
      hide Hit, Below, Redacted;
    }
    assert result.entries == after.entries;
  }

  lemma HitGrows(rules: set<Rule>, rule: Rule, key: string, action: Action)
    ensures Hit(rules + {rule}, key, action) <==>
            Hit(rules, key, action) || (rule.action == action && (rule.path == [key] || rule.path == [WILDCARD]))
  {}

  /** A rule that goes on changes nothing but what lies below its first key. */
  lemma LongerRule(value: Value, rules: set<Rule>, rule: Rule, mask: string, key: string)
    requires value.Node? && |rule.path| != 1
    ensures var all := rules + {rule};
            && Hit(all, key, Drop) == Hit(rules, key, Drop) && Hit(all, key, Mask) == Hit(rules, key, Mask)
            && Below(all, key) == if rule.path != [] && rule.path[0] == key
                                  then Below(rules, key) + {Rule(rule.path[1..], rule.action)} else Below(rules, key)
  {
    HitGrows(rules, rule, key, Drop);
    HitGrows(rules, rule, key, Mask);
    BelowGrows(rules, rule, key);
  }

  /** One more rule after all the others is the same as one more among them. */
  lemma {:induction false} OneMoreRule(value: Value, rules: set<Rule>, rule: Rule, mask: string)
    ensures Apply(Redacted(value, rules, mask), rule, mask) == Redacted(value, rules + {rule}, mask)
    decreases |rule.path|
  {
    if value.Node? {
      if |rule.path| == 1 {
        EndingRule(value, rules, rule, mask);
      } else {
        var before, after := Redacted(value, rules, mask), Redacted(value, rules + {rule}, mask);
        var result := Apply(before, rule, mask);
        forall k: string
          ensures k in result.entries <==> k in after.entries
          ensures k in after.entries ==> result.entries[k] == after.entries[k]
        {
          LongerRule(value, rules, rule, mask, k);
          RedactedAt(value, rules, mask, k);
          RedactedAt(value, rules + {rule}, mask, k);
          ApplyAt(before, rule, mask, k);
          assert Apply(Atom(mask), Rule(if rule.path == [] then [] else rule.path[1..], rule.action), mask) == Atom(mask);
          hide Hit, Below, Redacted, Apply;
          if rule.path != [] && k == rule.path[0] && k in value.entries {
            OneMoreRule(value.entries[k], Below(rules, k), Rule(rule.path[1..], rule.action), mask);
          }
        }
        assert result.entries == after.entries;
      }
    }
  }

  lemma BelowGrows(rules: set<Rule>, rule: Rule, key: string)
    ensures Below(rules + {rule}, key) ==
            if |rule.path| >= 2 && rule.path[0] == key then Below(rules, key) + {Rule(rule.path[1..], rule.action)}
            else Below(rules, key)
  {}

  function ApplyAll(value: Value, order: seq<Rule>, mask: string): Value {
    if order == [] then value else Apply(ApplyAll(value, order[..|order| - 1], mask), order[|order| - 1], mask)
  }

  /** Whatever the order, with or without repeats, the result depends only on which rules there are. */
  lemma {:induction false} OrderDoesNotMatter(value: Value, order: seq<Rule>, mask: string)
    ensures ApplyAll(value, order, mask) == Redacted(value, (set rule | rule in order), mask)
  {
    if order == [] {
      NoRules(value, mask);
      assert (set rule | rule in order) == {};
    } else {
      var front, last := order[..|order| - 1], order[|order| - 1];
      OrderDoesNotMatter(value, front, mask);
      assert order == front + [last];
      OneMoreRule(value, (set rule | rule in front), last, mask);
      assert (set rule | rule in order) == (set rule | rule in front) + {last};
    }
  }

  lemma RulesCommute(value: Value, a: Rule, b: Rule, mask: string)
    ensures Apply(Apply(value, a, mask), b, mask) == Apply(Apply(value, b, mask), a, mask)
  {
    NoRules(value, mask);
    OneMoreRule(value, {}, a, mask);
    OneMoreRule(value, {a}, b, mask);
    OneMoreRule(value, {}, b, mask);
    OneMoreRule(value, {b}, a, mask);
    assert {} + {a} + {b} == {} + {b} + {a};
    assert {} + {a} == {a} && {} + {b} == {b};
  }

  /** Two policies one after the other are one policy with the rules of both. */
  lemma {:induction false} RedactTwice(value: Value, first: set<Rule>, second: set<Rule>, mask: string)
    ensures Redacted(Redacted(value, first, mask), second, mask) == Redacted(value, first + second, mask)
    decreases second
  {
    if second == {} {
      NoRules(Redacted(value, first, mask), mask);
      assert first + second == first;
    } else {
      var rule :| rule in second;
      RedactTwice(value, first, second - {rule}, mask);
      OneMoreRule(Redacted(value, first, mask), second - {rule}, rule, mask);
      OneMoreRule(value, first + (second - {rule}), rule, mask);
      assert second - {rule} + {rule} == second;
      assert first + (second - {rule}) + {rule} == first + second;
    }
  }

  // ---- What the policy achieves ----

  /** What stands at an address, a list of keys from the top. */
  function Find(value: Value, address: seq<string>): Option<Value>
    decreases |address|
  {
    if address == [] then Some(value)
    else if value.Node? && address[0] in value.entries then Find(value.entries[address[0]], address[1..])
    else None
  }

  /** The rule names this very address. */
  predicate Covers(path: seq<string>, address: seq<string>) {
    && |path| == |address| > 0
    && path[..|path| - 1] == address[..|path| - 1]
    && (path[|path| - 1] == address[|path| - 1] || path[|path| - 1] == WILDCARD)
  }

  ghost predicate Untouched(rules: set<Rule>, address: seq<string>) {
    forall rule, n :: rule in rules && 0 < n <= |address| ==> !Covers(rule.path, address[..n])
  }

  lemma CoversBelow(path: seq<string>, address: seq<string>)
    requires |path| >= 2 && address != [] && path[0] == address[0]
    ensures Covers(path, address) <==> Covers(path[1..], address[1..])
  {
    if |path| == |address| {
      var p, a := path[..|path| - 1], address[..|path| - 1];
      assert path[1..][..|path| - 2] == p[1..] && address[1..][..|path| - 2] == a[1..];
      assert p == [p[0]] + p[1..] && a == [a[0]] + a[1..];
    }
  }

  /** A dropped address is gone, and a masked one holds nothing but the replacement. */
  lemma {:induction false} RuleIsEnforced(value: Value, rules: set<Rule>, rule: Rule, address: seq<string>, mask: string)
    requires rule in rules && Covers(rule.path, address)
    ensures var found := Find(Redacted(value, rules, mask), address);
            found.None? || (rule.action.Mask? && found.value == Atom(mask))
    decreases |address|
  {
    if |address| == 1 {
      assert rule == Rule([rule.path[0]], rule.action);
      assert Hit(rules, address[0], rule.action);
      assert address[1..] == [];
      if value.Node? { RedactedAt(value, rules, mask, address[0]); }
      if rule.action.Drop? { assert Hit(rules, address[0], Drop); } else { assert Hit(rules, address[0], Mask); }
    } else if value.Node? && address[0] in value.entries {
      var k := address[0];
      assert rule.path[..|rule.path| - 1][0] == address[..|rule.path| - 1][0];
      CoversBelow(rule.path, address);
      assert Rule(rule.path[1..], rule.action) in Below(rules, k);
      RuleIsEnforced(value.entries[k], Below(rules, k), Rule(rule.path[1..], rule.action), address[1..], mask);
      RedactedAt(value, rules, mask, k);
    }
  }

  /** A plain value that no rule reaches stays where it is. */
  lemma {:induction false} UntouchedStays(value: Value, rules: set<Rule>, address: seq<string>, mask: string)
    requires Untouched(rules, address)
    ensures Find(value, address).Some? ==>
              Find(Redacted(value, rules, mask), address) ==
              Some(Redacted(Find(value, address).value, Beyond(rules, address), mask))
    decreases |address|
  {
    if address != [] && value.Node? && address[0] in value.entries {
      var k := address[0];
      forall rule | rule in rules ensures !Covers(rule.path, [k]) { assert address[..1] == [k]; }
      assert forall action :: Hit(rules, k, action) ==> Covers([k], [k]) && Covers([WILDCARD], [k]);
      forall rule, n | rule in Below(rules, k) && 0 < n <= |address[1..]|
        ensures !Covers(rule.path, address[1..][..n])
      {
        var longer := Rule([k] + rule.path, rule.action);
        var origin :| origin in rules && |origin.path| >= 2 && origin.path[0] == k
                      && Rule(origin.path[1..], origin.action) == rule;
        CoversBelow(origin.path, address[..n + 1]);
        assert address[..n + 1][1..] == address[1..][..n];
      }
      UntouchedStays(value.entries[k], Below(rules, k), address[1..], mask);
    }
  }

  /** The rules that go on below an address. */
  function Beyond(rules: set<Rule>, address: seq<string>): set<Rule>
    decreases |address|
  {
    if address == [] then rules else Beyond(Below(rules, address[0]), address[1..])
  }
}
