/**
 The redactor: it checks and trims the configured rules once, then applies them to a clone of
 each payload, editing the nested maps in place.
 */
module Sanitizer {
  import opened Results
  import opened Text
  import opened Redaction

  datatype Entry = Plain(text: string) | Nested(child: JsonObject)

  /** A nested map held by reference, as a payload holds it. */
  class JsonObject {
    var entries: map<string, Entry>
    ghost const Repr: set<JsonObject>

    /** Each child owns its own part of what this object owns. */
    ghost predicate Apart(entries: map<string, Entry>) {
      && this in Repr
      && (forall k :: k in entries && entries[k].Nested? ==>
            var child := entries[k].child;
            child in Repr && child in child.Repr && child.Repr < Repr && this !in child.Repr)
      && SeparatelyOwned(entries)
    }

    ghost predicate Valid()
      reads this, Repr
      decreases Repr
    {
      && Apart(entries)
      && (forall k :: k in entries && entries[k].Nested? ==> entries[k].child.Valid())
    }

    ghost function Tree(): Value
      requires Valid()
      reads this, Repr
      decreases Repr
    {
      Node(map k | k in entries :: if entries[k].Nested? then entries[k].child.Tree() else Atom(entries[k].text))
    }

    constructor (entries: map<string, Entry>, ghost inner: set<JsonObject>)
      ensures this.entries == entries && Repr == {this} + inner
    {
      this.entries := entries;
      Repr := {this} + inner;
    }

    method ApplyRedaction(path: seq<string>, action: Action, mask: string)
      requires Valid()
      modifies Repr
      ensures Valid() && Tree() == Apply(old(Tree()), Rule(path, action), mask)
      decreases |path|
    {
      if |path| == 0 { return; }
      if |path| == 1 {
        if path[0] == WILDCARD { EditAll(action, mask); } else { EditOne(path[0], action, mask); }
        return;
      }
      if path[0] !in entries || entries[path[0]].Plain? { return; }
      ghost var was := Tree();
      entries[path[0]].child.ApplyRedaction(path[1..], action, mask);
      forall k | k in entries && k != path[0] && entries[k].Nested?
        ensures entries[k].child.Valid() && entries[k].child.Tree() == was.entries[k]
      {
        assert entries[k].child.Repr !! entries[path[0]].child.Repr;
      }
      assert Tree().entries == was.entries[path[0] := entries[path[0]].child.Tree()];
    }

    method EditAll(action: Action, mask: string)
      requires Valid()
      modifies this
      ensures Valid() && Tree() == Node(Replaced(old(Tree()).entries, old(Tree()).entries.Keys, action, mask))
    {
      var pending := entries.Keys;
      ghost var before, was := entries, Tree();
      while pending != {}
        invariant pending <= entries.Keys
        invariant entries == Edited(before, before.Keys - pending, action, mask)
      {
        var key :| key in pending;
        if action == Drop { entries := entries - {key}; } else { entries := entries[key := Plain(mask)]; }
        pending := pending - {key};
      }
      assert before.Keys - pending == before.Keys;
      EntriesEdited(before, was, before.Keys, action, mask);
    }

    method EditOne(key: string, action: Action, mask: string)
      requires Valid()
      modifies this
      ensures Valid() && Tree() == Node(Replaced(old(Tree()).entries, old(Tree()).entries.Keys * {key}, action, mask))
    {
      ghost var before, was := entries, Tree();
      if key in entries {
        if action == Drop { entries := entries - {key}; } else { entries := entries[key := Plain(mask)]; }
      }
      EntriesEdited(before, was, before.Keys * {key}, action, mask);
    }

    /** Editing a map's own entries edits its tree and leaves what is below as it was. */
    lemma EntriesEdited(before: map<string, Entry>, was: Value, keys: set<string>, action: Action, mask: string)
      requires Apart(before) && was.Node? && was.entries.Keys == before.Keys
      requires forall k :: k in before && before[k].Nested? ==>
                 before[k].child.Valid() && was.entries[k] == before[k].child.Tree()
      requires forall k :: k in before && before[k].Plain? ==> was.entries[k] == Atom(before[k].text)
      requires entries == Edited(before, keys, action, mask)
      ensures Valid() && Tree() == Node(Replaced(was.entries, keys, action, mask))
    {
      assert forall k :: k in entries && entries[k].Nested? ==> entries[k] == before[k];
      assert Valid();
      assert Tree().entries == Replaced(was.entries, keys, action, mask);
    }
  }

  /** Some keys of a map dropped, or masked. */
  function Edited(entries: map<string, Entry>, keys: set<string>, action: Action, mask: string): map<string, Entry> {
    match action
    case Drop => entries - keys
    case Mask => map k | k in entries :: if k in keys then Plain(mask) else entries[k]
  }

  /** A deep copy: equal as a tree and sharing nothing. */
  method Clone(original: JsonObject) returns (copy: JsonObject)
    requires original.Valid()
    ensures fresh(copy.Repr) && copy.Valid() && copy.Tree() == original.Tree()
    decreases original.Repr, 0
  {
    var entries: map<string, Entry> := map[];
    ghost var inner: set<JsonObject> := {};
    var pending := original.entries.Keys;
    while pending != {}
      invariant pending <= original.entries.Keys && entries.Keys == original.entries.Keys - pending
      invariant fresh(inner)
      invariant forall k :: k in entries ==> Copied(entries[k], original.entries[k], inner)
      invariant SeparatelyOwned(entries)
    {
      var key :| key in pending;
      OwnedBelow(original, key);
      var entry, owned := CloneEntry(original.entries[key]);
      hide *;
      CopyJoins(entries, original, inner, key, entry, owned);
      inner := inner + owned;
      entries := entries[key := entry];
      pending := pending - {key};
    }
    copy := new JsonObject(entries, inner);
    CopyIsEqual(copy, original, inner);
  }

  method CloneEntry(original: Entry) returns (copy: Entry, ghost owned: set<JsonObject>)
    requires original.Nested? ==> original.child.Valid()
    ensures fresh(owned) && Copied(copy, original, owned)
    decreases if original.Nested? then original.child.Repr else {}, 1
  {
    match original
    case Plain(_) =>
      return original, {};
    case Nested(child) =>
      var cloned := Clone(child);
      return Nested(cloned), cloned.Repr;
  }

  lemma OwnedBelow(original: JsonObject, key: string)
    requires original.Valid() && key in original.entries
    ensures original.entries[key].Nested? ==>
              original.entries[key].child.Valid() && original.entries[key].child.Repr < original.Repr
  {}

  /** A copied entry whose objects nothing else owns joins the copied ones. */
  lemma CopyJoins(entries: map<string, Entry>, original: JsonObject, inner: set<JsonObject>,
                  key: string, entry: Entry, owned: set<JsonObject>)
    requires entries.Keys <= original.entries.Keys && key in original.entries && key !in entries
    requires SeparatelyOwned(entries) && owned !! inner && Copied(entry, original.entries[key], owned)
    requires forall k :: k in entries ==> Copied(entries[k], original.entries[k], inner)
    ensures var joined := entries[key := entry];
            && SeparatelyOwned(joined)
            && forall k :: k in joined ==> Copied(joined[k], original.entries[k], inner + owned)
  {}

  lemma CopyIsEqual(copy: JsonObject, original: JsonObject, inner: set<JsonObject>)
    requires original.Valid() && copy.Repr == {copy} + inner && copy !in inner
    requires copy.entries.Keys == original.entries.Keys && copy.Apart(copy.entries)
    requires forall k :: k in copy.entries ==> Copied(copy.entries[k], original.entries[k], inner)
    ensures copy.Valid() && copy.Tree() == original.Tree()
  {
    assert copy.Valid();
    assert copy.Tree().entries == original.Tree().entries;
  }

  ghost predicate SeparatelyOwned(entries: map<string, Entry>) {
    forall j, k :: j in entries && k in entries && j != k && entries[j].Nested? && entries[k].Nested? ==>
      entries[j].child.Repr !! entries[k].child.Repr
  }

  ghost predicate Copied(entry: Entry, original: Entry, inner: set<JsonObject>)
    reads inner
    reads if original.Nested? then {original.child} + original.child.Repr else {}
  {
    match entry
    case Plain(_) => entry == original
    case Nested(child) =>
      && child in child.Repr && child.Repr <= inner && child.Valid()
      && original.Nested? && original.child.Valid() && child.Tree() == original.child.Tree()
  }

  // ---- Paths ----

  /** A dotted path cut at its dots. */
  function Split(path: string): (parts: seq<string>)
    ensures parts != []
  {
    if path == "" then [""]
    else
      var rest := Split(path[1..]);
      if path[0] == '.' then [""] + rest else [[path[0]] + rest[0]] + rest[1..]
  }

  function Join(parts: seq<string>): string
    requires parts != []
  {
    if |parts| == 1 then parts[0] else parts[0] + "." + Join(parts[1..])
  }

  lemma {:induction false} SplitKeepsThePath(path: string)
    ensures Join(Split(path)) == path
  {
    if path != "" {
      SplitKeepsThePath(path[1..]);
      var rest := Split(path[1..]);
      assert path == [path[0]] + path[1..];
      if path[0] == '.' {
        assert ([""] + rest)[1..] == rest;
      } else if |rest| > 1 {
        var parts := [[path[0]] + rest[0]] + rest[1..];
        assert parts[1..] == rest[1..];
        assert Join(parts) == [path[0]] + rest[0] + "." + Join(rest[1..]);
      }
    }
  }

  predicate ValidPath(path: string) {
    && path != "" && |path| <= 512
    && '\r' !in path && '\n' !in path && '\0' !in path
    && var parts := Split(path);
       |parts| >= 2 && forall i :: 0 <= i < |parts| ==> parts[i] != "" && (parts[i] == WILDCARD ==> i == |parts| - 1)
  }

  // ---- The redactor ----

  datatype Redactor = Redactor(rules: map<string, Action>, replacement: string)

  const DEFAULT_REPLACEMENT := "[REDACTED]"

  function RuleOf(path: string, action: Action): Rule {
    Rule(Split(path)[1..], action)
  }

  predicate InScope(path: string, scope: string) {
    |Split(path)| >= 2 && Split(path)[0] == scope
  }

  /** The rules among `paths` that concern this scope, cut to the keys below it. */
  function RulesAmong(rules: map<string, Action>, paths: set<string>, scope: string): set<Rule> {
    set path | path in paths && path in rules && InScope(path, scope) :: RuleOf(path, rules[path])
  }

  /** No path carries two actions: different configured paths stay different. */
  lemma OneActionPerPath(rules: map<string, Action>, scope: string, a: Rule, b: Rule)
    requires a in RulesAmong(rules, rules.Keys, scope) && b in RulesAmong(rules, rules.Keys, scope) && a.path == b.path
    ensures a == b
  {
    var p :| p in rules && InScope(p, scope) && RuleOf(p, rules[p]) == a;
    var q :| q in rules && InScope(q, scope) && RuleOf(q, rules[q]) == b;
    SplitKeepsThePath(p);
    SplitKeepsThePath(q);
    assert Split(p) == [scope] + a.path == Split(q);
  }

  /** The sanitized clone, whatever the order in which the rules come up; the payload itself is not touched. */
  method SanitizeMap(redactor: Redactor, scope: string, value: JsonObject) returns (clone: JsonObject)
    requires value.Valid()
    ensures fresh(clone.Repr) && clone.Valid()
    ensures clone.Tree() ==
            Redacted(value.Tree(), RulesAmong(redactor.rules, redactor.rules.Keys, scope), redactor.replacement)
  {
    hide *;
    NothingApplied(value.Tree(), redactor, scope);
    clone := Clone(value);
    ApplyRules(clone, redactor, scope, value.Tree());
  }

  lemma NothingApplied(value: Value, redactor: Redactor, scope: string)
    ensures Redacted(value, RulesAmong(redactor.rules, {}, scope), redactor.replacement) == value
  {
    NoRules(value, redactor.replacement);
    assert RulesAmong(redactor.rules, {}, scope) == {};
  }

  /** Every rule once, in any order. */
  method ApplyRules(clone: JsonObject, redactor: Redactor, scope: string, ghost original: Value)
    requires clone.Valid() && clone.Tree() == Redacted(original, RulesAmong(redactor.rules, {}, scope), redactor.replacement)
    modifies clone.Repr
    ensures clone.Valid()
    ensures clone.Tree() ==
            Redacted(original, RulesAmong(redactor.rules, redactor.rules.Keys, scope), redactor.replacement)
  {
    var pending := redactor.rules.Keys;
    ghost var done: set<string> := {};
    hide *;
    while pending != {}
      invariant pending !! done && pending + done == redactor.rules.Keys && clone.Valid()
      invariant clone.Tree() == Redacted(original, RulesAmong(redactor.rules, done, scope), redactor.replacement)
    {
      var path :| path in pending;
      ApplyRule(clone, redactor, path, scope, original, done);
      pending := pending - {path};
      done := done + {path};
    }
    assert done == redactor.rules.Keys;
  }

  method ApplyRule(clone: JsonObject, redactor: Redactor, path: string, scope: string,
                   ghost original: Value, ghost done: set<string>)
    requires path in redactor.rules && clone.Valid()
    requires clone.Tree() == Redacted(original, RulesAmong(redactor.rules, done, scope), redactor.replacement)
    modifies clone.Repr
    ensures clone.Valid()
    ensures clone.Tree() == Redacted(original, RulesAmong(redactor.rules, done + {path}, scope), redactor.replacement)
  {
    OnePathApplied(original, redactor.rules, done, path, scope, redactor.replacement);
    hide Split, Redacted, Apply, RulesAmong;
    var parts := Split(path);
    if |parts| >= 2 && parts[0] == scope {
      clone.ApplyRedaction(parts[1..], redactor.rules[path], redactor.replacement);
    }
  }

  lemma OnePathApplied(value: Value, rules: map<string, Action>, done: set<string>, path: string, scope: string, mask: string)
    requires path in rules
    ensures Redacted(value, RulesAmong(rules, done + {path}, scope), mask) ==
            if InScope(path, scope)
            then Apply(Redacted(value, RulesAmong(rules, done, scope), mask), RuleOf(path, rules[path]), mask)
            else Redacted(value, RulesAmong(rules, done, scope), mask)
  {
    hide *;
    OnePathMore(rules, done, path, scope);
    if InScope(path, scope) {
      OneMoreRule(value, RulesAmong(rules, done, scope), RuleOf(path, rules[path]), mask);
    }
  }

  lemma OnePathMore(rules: map<string, Action>, done: set<string>, path: string, scope: string)
    requires path in rules
    ensures RulesAmong(rules, done + {path}, scope) ==
            if InScope(path, scope) then RulesAmong(rules, done, scope) + {RuleOf(path, rules[path])}
            else RulesAmong(rules, done, scope)
  {}

  lemma SanitizeTwice(value: Value, rules: map<string, Action>, scope: string, replacement: string)
    ensures var all := RulesAmong(rules, rules.Keys, scope);
            Redacted(Redacted(value, all, replacement), all, replacement) == Redacted(value, all, replacement)
  {
    var all := RulesAmong(rules, rules.Keys, scope);
    RedactTwice(value, all, all, replacement);
    assert all + all == all;
  }

  // ---- Configuration ----

  function ActionOf(text: string): Option<Action> {
    if text == "drop" then Some(Drop) else if text == "mask" then Some(Mask) else None
  }

  predicate ValidOption(rawPath: string, action: string) {
    ValidPath(TrimSpace(rawPath)) && ActionOf(action).Some?
  }

  ghost predicate AllValid(options: map<string, string>) {
    forall raw :: raw in options ==> ValidOption(raw, options[raw])
  }

  /** The rules after the options were read in this order; paths are trimmed and the last one wins. */
  function Assigned(options: map<string, string>, order: seq<string>): map<string, Action>
    requires forall raw :: raw in order ==> raw in options && ActionOf(options[raw]).Some?
  {
    if order == [] then map[]
    else
      var last := order[|order| - 1];
      Assigned(options, order[..|order| - 1])[TrimSpace(last) := ActionOf(options[last]).value]
  }

  ghost predicate EachOnce(order: seq<string>, keys: set<string>) {
    && (forall raw :: raw in order <==> raw in keys)
    && (forall i, j :: 0 <= i < j < |order| ==> order[i] != order[j])
  }

  /** The rules that reading the options in some order would give. */
  ghost predicate Possible(options: map<string, string>, rules: map<string, Action>)
    requires AllValid(options)
  {
    exists order :: EachOnce(order, options.Keys) && rules == Assigned(options, order)
  }

  /** Keys that are the same once trimmed ask for the same action. */
  ghost predicate Unambiguous(options: map<string, string>) {
    forall a, b :: a in options && b in options && TrimSpace(a) == TrimSpace(b) ==> options[a] == options[b]
  }

  method NewRedactor(options: map<string, string>, replacement: string) returns (r: Option<Redactor>)
    ensures r.Some? <==> AllValid(options)
    ensures r.Some? ==>
              && Possible(options, r.value.rules)
              && (forall path :: path in r.value.rules ==> ValidPath(path))
              && r.value.replacement == if replacement == "" then "[REDACTED]" else replacement
  {
    hide ValidPath, TrimSpace, ActionOf;
    var rules: map<string, Action> := map[];
    ghost var order: seq<string> := [];
    var pending := options.Keys;
    while pending != {}
      invariant pending <= options.Keys && EachOnce(order, options.Keys - pending)
      invariant forall raw :: raw in order ==> ValidOption(raw, options[raw])
      invariant rules == Assigned(options, order)
      invariant forall path :: path in rules ==> ValidPath(path)
    {
      var rawPath :| rawPath in pending;
      pending := pending - {rawPath};
      var path := TrimSpace(rawPath);
      if !ValidPath(path) { return None; }
      if ActionOf(options[rawPath]).None? { return None; }
      rules := rules[path := ActionOf(options[rawPath]).value];
      assert (order + [rawPath])[..|order|] == order;
      order := order + [rawPath];
    }
    assert options.Keys - pending == options.Keys;
    r := Some(Redactor(rules, if replacement == "" then DEFAULT_REPLACEMENT else replacement));
  }

  lemma {:induction false} AssignedFrom(options: map<string, string>, order: seq<string>, path: string)
    requires forall raw :: raw in order ==> raw in options && ActionOf(options[raw]).Some?
    ensures path in Assigned(options, order) <==> exists raw :: raw in order && TrimSpace(raw) == path
    ensures path in Assigned(options, order) ==>
              exists raw :: raw in order && TrimSpace(raw) == path
                            && ActionOf(options[raw]).value == Assigned(options, order)[path]
  {
    if order != [] {
      var front, last := order[..|order| - 1], order[|order| - 1];
      AssignedFrom(options, front, path);
      assert order == front + [last];
      if TrimSpace(last) == path {
        assert last in order;
      } else if path in Assigned(options, front) {
        var raw :| raw in front && TrimSpace(raw) == path && ActionOf(options[raw]).value == Assigned(options, front)[path];
        assert raw in order;
      }
    }
  }

  lemma {:induction false} SomeOrder(keys: set<string>) returns (order: seq<string>)
    ensures EachOnce(order, keys)
    decreases keys
  {
    if keys == {} {
      order := [];
    } else {
      var key :| key in keys;
      var rest := SomeOrder(keys - {key});
      order := rest + [key];
    }
  }

  /** An order that ends with a given key, so that this key decides its path. */
  lemma LastDecides(options: map<string, string>, last: string) returns (rules: map<string, Action>)
    requires AllValid(options) && last in options
    ensures Possible(options, rules)
    ensures TrimSpace(last) in rules && rules[TrimSpace(last)] == ActionOf(options[last]).value
  {
    var rest := SomeOrder(options.Keys - {last});
    var order := rest + [last];
    assert EachOnce(order, options.Keys);
    rules := Assigned(options, order);
    assert order[..|order| - 1] == rest;
  }

  lemma ActionIsFixed(options: map<string, string>, order: seq<string>, path: string, raw: string)
    requires AllValid(options) && Unambiguous(options) && EachOnce(order, options.Keys)
    requires raw in options && TrimSpace(raw) == path
    ensures path in Assigned(options, order) && Assigned(options, order)[path] == ActionOf(options[raw]).value
  {
    assert raw in order;
    AssignedFrom(options, order, path);
  }

  lemma SameRules(options: map<string, string>, r: map<string, Action>, r': map<string, Action>)
    requires AllValid(options) && Unambiguous(options) && Possible(options, r) && Possible(options, r')
    ensures forall path :: path in r ==> path in r' && r[path] == r'[path]
  {
    var order :| EachOnce(order, options.Keys) && r == Assigned(options, order);
    var order' :| EachOnce(order', options.Keys) && r' == Assigned(options, order');
    forall path | path in r ensures path in r' && r[path] == r'[path] {
      AssignedFrom(options, order, path);
      var raw :| raw in order && TrimSpace(raw) == path;
      ActionIsFixed(options, order, path, raw);
      ActionIsFixed(options, order', path, raw);
    }
  }

  /** The redactor does not depend on map order exactly when no two keys trim alike and differ in action. */
  lemma RulesFixedIffUnambiguous(options: map<string, string>)
    requires AllValid(options)
    ensures (forall r, r' :: Possible(options, r) && Possible(options, r') ==> r == r') <==> Unambiguous(options)
  {
    hide Possible, TrimSpace, ValidPath;
    if forall r, r' :: Possible(options, r) && Possible(options, r') ==> r == r' {
      forall a, b | a in options && b in options && TrimSpace(a) == TrimSpace(b)
        ensures options[a] == options[b]
      {
        var r := LastDecides(options, a);
        var r' := LastDecides(options, b);
        assert ValidOption(a, options[a]) && ValidOption(b, options[b]);
      }
    }
    if Unambiguous(options) {
      forall r, r' | Possible(options, r) && Possible(options, r') ensures r == r' {
        SameRules(options, r, r');
        SameRules(options, r', r);
        assert r.Keys == r'.Keys;
      }
    }
  }

  /** Two spellings of one path, told apart only by a leading space, ask for different actions. */
  lemma TwoSpellings()
    ensures var options := map["a.b" := "drop", " a.b" := "mask"];
            AllValid(options) && !Unambiguous(options)
  {
    SpellingsTrimAlike();
    ShortPathIsValid();
    hide TrimSpace, ValidPath;
    var options := map["a.b" := "drop", " a.b" := "mask"];
    assert "a.b" in options && " a.b" in options;
  }

  lemma SpellingsTrimAlike()
    ensures TrimSpace(" a.b") == TrimSpace("a.b") == "a.b"
  {
    assert " a.b"[1..] == "a.b";
    assert TrimLeft(" a.b") == TrimLeft("a.b") == "a.b";
    assert TrimRight("a.b") == "a.b";
  }

  lemma ShortPathIsValid()
    ensures ValidPath("a.b")
  {
    assert "b"[1..] == "" && ['b'] + "" == "b" && ['a'] + "" == "a";
    assert Split("b") == ["b"];
    assert ".b"[1..] == "b" && Split(".b") == ["", "b"];
    assert "a.b"[1..] == ".b" && Split(".b")[1..] == ["b"];
    assert Split("a.b") == ["a", "b"];
  }
}
