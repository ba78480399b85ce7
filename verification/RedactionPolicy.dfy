/** From a configured line, a dotted path with an action, to what is found in the sanitized payload. */
module RedactionPolicy {
  import opened Results
  import opened Text
  import opened Redaction
  import opened Sanitizer

  predicate Dotless(key: string) {
    '.' !in key
  }

  /** Keys without dots are found again in their dotted path. */
  lemma {:induction false} JoinedKeysSplit(keys: seq<string>)
    requires keys != [] && forall k :: k in keys ==> Dotless(k)
    ensures Split(Join(keys)) == keys
  {
    assert keys[0] in keys;
    if |keys| == 1 {
      DotlessIsOnePart(keys[0]);
    } else {
      assert forall k :: k in keys[1..] ==> k in keys;
      JoinedKeysSplit(keys[1..]);
      PartBeforeDot(keys[0], Join(keys[1..]));
      assert keys == [keys[0]] + keys[1..];
    }
  }

  lemma {:induction false} DotlessIsOnePart(key: string)
    requires Dotless(key)
    ensures Split(key) == [key]
  {
    if key != "" {
      DotlessIsOnePart(key[1..]);
      assert [key[0]] + key[1..] == key;
    }
  }

  lemma {:induction false} PartBeforeDot(key: string, rest: string)
    requires Dotless(key)
    ensures Split(key + "." + rest) == [key] + Split(rest)
  {
    var path := key + "." + rest;
    if key == "" {
      assert path[0] == '.' && path[1..] == rest;
    } else {
      PartBeforeDot(key[1..], rest);
      assert path[0] == key[0] && path[1..] == key[1..] + "." + rest;
      assert [key[0]] + key[1..] == key && ([key[1..]] + Split(rest))[1..] == Split(rest);
    }
  }

  lemma {:induction false} CharactersOfJoined(keys: seq<string>, c: char)
    requires keys != [] && c != '.'
    ensures c in Join(keys) <==> exists i :: 0 <= i < |keys| && c in keys[i]
  {
    if |keys| > 1 {
      CharactersOfJoined(keys[1..], c);
      assert forall i :: 0 < i < |keys| ==> keys[i] == keys[1..][i - 1];
    }
  }

  /**
   A dotted path is accepted exactly when it has a scope and a key, no empty key, a star at most
   as its last key, at most 512 characters and no line break or zero character.
   */
  lemma PathIsValidIff(keys: seq<string>)
    requires keys != [] && forall k :: k in keys ==> Dotless(k)
    ensures ValidPath(Join(keys)) <==>
            && |keys| >= 2 && |Join(keys)| <= 512
            && (forall i :: 0 <= i < |keys| ==> keys[i] != "" && (keys[i] == "*" ==> i == |keys| - 1))
            && (forall i :: 0 <= i < |keys| ==> '\r' !in keys[i] && '\n' !in keys[i] && !HasNul(keys[i]))
  {
    JoinedKeysSplit(keys);
    CharactersOfJoined(keys, '\r');
    CharactersOfJoined(keys, '\n');
    CharactersOfJoined(keys, '\0');
    if Join(keys) == "" { assert Split("") == [""]; }
  }

  predicate HasNul(key: string) {
    '\0' in key
  }

  /** A value is masked here and nothing above it or with it drops or masks it. */
  ghost predicate MaskedHere(rules: set<Rule>, address: seq<string>) {
    && (exists rule :: rule in rules && rule.action.Mask? && Covers(rule.path, address))
    && (forall rule :: rule in rules && rule.action.Drop? ==> !Covers(rule.path, address))
    && (forall rule, n :: rule in rules && 0 < n < |address| ==> !Covers(rule.path, address[..n]))
  }

  /** What is there and masked, and not taken away by a drop or from above, reads as the replacement. */
  lemma {:induction false} MaskedReadsAsReplacement(value: Value, rules: set<Rule>, address: seq<string>, mask: string)
    requires MaskedHere(rules, address) && Find(value, address).Some?
    ensures Find(Redacted(value, rules, mask), address) == Some(Atom(mask))
    decreases |address|
  {
    var rule :| rule in rules && rule.action.Mask? && Covers(rule.path, address);
    var k := address[0];
    if |address| == 1 {
      assert rule == Rule([rule.path[0]], Mask) && address == [k];
      assert Hit(rules, k, Mask);
      assert Covers([k], address) && Covers([WILDCARD], address);
      assert address[1..] == [];
      RedactedAt(value, rules, mask, k);
    } else {
      forall r | r in rules ensures !Covers(r.path, [k]) { assert address[..1] == [k]; }
      assert forall action :: Hit(rules, k, action) ==> Covers([k], [k]) && Covers([WILDCARD], [k]);
      assert rule.path[..|rule.path| - 1][0] == address[..|rule.path| - 1][0];
      CoversBelow(rule.path, address);
      assert Rule(rule.path[1..], Mask) in Below(rules, k);
      MaskedBelow(rules, address);
      MaskedReadsAsReplacement(value.entries[k], Below(rules, k), address[1..], mask);
      RedactedAt(value, rules, mask, k);
    }
  }

  lemma MaskedBelow(rules: set<Rule>, address: seq<string>)
    requires |address| >= 2 && MaskedHere(rules, address)
    ensures MaskedHere(Below(rules, address[0]), address[1..])
  {
    var k := address[0];
    var rule :| rule in rules && rule.action.Mask? && Covers(rule.path, address);
    assert rule.path[..|rule.path| - 1][0] == address[..|rule.path| - 1][0];
    CoversBelow(rule.path, address);
    assert Rule(rule.path[1..], Mask) in Below(rules, k);
    forall r | r in Below(rules, k)
      ensures r.action.Drop? ==> !Covers(r.path, address[1..])
      ensures forall n :: 0 < n < |address[1..]| ==> !Covers(r.path, address[1..][..n])
    {
      var origin :| origin in rules && |origin.path| >= 2 && origin.path[0] == k && Rule(origin.path[1..], origin.action) == r;
      CoversBelow(origin.path, address);
      forall n | 0 < n < |address[1..]|
        ensures !Covers(r.path, address[1..][..n])
      {
        CoversBelow(origin.path, address[..n + 1]);
        assert address[..n + 1][1..] == address[1..][..n];
      }
    }
  }

  /** Every line that trims to the same path asks for the same action. */
  ghost predicate Undisputed(options: map<string, string>, raw: string)
    requires raw in options
  {
    forall other :: other in options && TrimSpace(other) == TrimSpace(raw) ==> options[other] == options[raw]
  }

  /** An accepted line becomes a rule of its scope with the action it names. */
  lemma LineBecomesRule(options: map<string, string>, rules: map<string, Action>, raw: string, scope: string, keys: seq<string>)
    requires AllValid(options) && Possible(options, rules) && raw in options && Undisputed(options, raw)
    requires Dotless(scope) && keys != [] && (forall k :: k in keys ==> Dotless(k)) && TrimSpace(raw) == scope + "." + Join(keys)
    ensures options[raw] == "drop" || options[raw] == "mask"
    ensures Rule(keys, if options[raw] == "drop" then Drop else Mask) in RulesAmong(rules, rules.Keys, scope)
  {
    var path := TrimSpace(raw);
    var order :| EachOnce(order, options.Keys) && rules == Assigned(options, order);
    hide TrimSpace;
    assert ValidOption(raw, options[raw]);
    assert raw in order && ActionOf(options[raw]).Some?;
    forall r | r in order ensures r in options && ActionOf(options[r]).Some? { assert ValidOption(r, options[r]); }
    AssignedFrom(options, order, path);
    PathSplits(scope, keys);
    assert InScope(path, scope) && RuleOf(path, rules[path]) == Rule(keys, rules[path]);
  }

  lemma PathSplits(scope: string, keys: seq<string>)
    requires Dotless(scope) && keys != [] && forall k :: k in keys ==> Dotless(k)
    ensures Split(scope + "." + Join(keys)) == [scope] + keys
    ensures Split(scope + "." + Join(keys))[1..] == keys
  {
    PartBeforeDot(scope, Join(keys));
    JoinedKeysSplit(keys);
  }

  /**
   From configuration to payload: what an undisputed line names, by its keys or by a last star,
   is not in the sanitized payload when it says drop, and when it says mask there is nothing but
   the replacement; and that is what stands there, unless something else takes it away.
   */
  lemma LineReachesPayload(options: map<string, string>, redactor: Redactor, raw: string, scope: string,
                           keys: seq<string>, address: seq<string>, payload: Value)
    requires AllValid(options) && Possible(options, redactor.rules) && raw in options && Undisputed(options, raw)
    requires Dotless(scope) && keys != [] && (forall k :: k in keys ==> Dotless(k)) && TrimSpace(raw) == scope + "." + Join(keys)
    requires Covers(keys, address)
    ensures var rules := RulesAmong(redactor.rules, redactor.rules.Keys, scope);
            var found := Find(Redacted(payload, rules, redactor.replacement), address);
            && (options[raw] == "drop" ==> found == None)
            && (options[raw] == "mask" ==> found == None || found == Some(Atom(redactor.replacement)))
            && (options[raw] == "mask" && Find(payload, address).Some?
                && (forall r :: r in rules && r.action.Drop? ==> !Covers(r.path, address))
                && (forall r, n :: r in rules && 0 < n < |address| ==> !Covers(r.path, address[..n]))
                ==> found == Some(Atom(redactor.replacement)))
  {
    var rules := RulesAmong(redactor.rules, redactor.rules.Keys, scope);
    var rule := Rule(keys, if options[raw] == "drop" then Drop else Mask);
    LineBecomesRule(options, redactor.rules, raw, scope, keys);
    hide RulesAmong, AllValid, Possible, TrimSpace, Find, Redacted;
    RuleIsEnforced(payload, rules, rule, address, redactor.replacement);
    if MaskedHere(rules, address) && Find(payload, address).Some? {
      MaskedReadsAsReplacement(payload, rules, address, redactor.replacement);
    }
  }
}
