/** Strings as the program compares and trims them. */
module Text {

  predicate IsSpace(c: char) {
    c == ' ' || c == '\t' || c == '\n' || c == '\r' || c == 11 as char || c == 12 as char
  }

  function TrimLeft(s: string): string {
    if s != [] && IsSpace(s[0]) then TrimLeft(s[1..]) else s
  }

  function TrimRight(s: string): string {
    if s != [] && IsSpace(s[|s| - 1]) then TrimRight(s[..|s| - 1]) else s
  }

  function TrimSpace(s: string): string {
    TrimRight(TrimLeft(s))
  }

  predicate Blank(s: string) {
    TrimSpace(s) == ""
  }

  /** A worker name: not blank, at most 256 bytes once trimmed, on one line. */
  predicate ValidWorkerName(name: string) {
    var owner := TrimSpace(name);
    owner != "" && |owner| <= 256 && '\r' !in owner && '\n' !in owner && '\0' !in owner
  }

  lemma EmptyIsBlank()
    ensures Blank("")
  {}

  /** Trimming on the right only shortens, and stops at the last printing character. */
  lemma {:induction false} TrimRightKeepsPrefix(s: string, keep: nat)
    requires 0 < keep <= |s| && !IsSpace(s[keep - 1])
    ensures keep <= |TrimRight(s)| <= |s| && TrimRight(s) == s[..|TrimRight(s)|]
  {
    if IsSpace(s[|s| - 1]) {
      var t := s[..|s| - 1];
      assert t[keep - 1] == s[keep - 1];
      TrimRightKeepsPrefix(t, keep);
      assert t[..|TrimRight(t)|] == s[..|TrimRight(t)|];
    }
  }

  predicate HasPrefix(s: string, prefix: string) {
    |prefix| <= |s| && s[..|prefix|] == prefix
  }

  /** A text cannot start with two tags that differ somewhere. */
  lemma TagsDiffer(s: string, a: string, b: string, k: nat)
    requires k < |a| && k < |b| && a[k] != b[k] && HasPrefix(s, a)
    ensures !HasPrefix(s, b)
  {
    assert s[k] == s[..|a|][k];
    assert |b| <= |s| ==> s[..|b|][k] == s[k];
  }

  /** A text that starts with a printing tag still starts with it after trimming. */
  lemma TrimKeepsTag(tag: string, rest: string)
    requires tag != "" && !IsSpace(tag[0]) && !IsSpace(tag[|tag| - 1])
    ensures HasPrefix(TrimSpace(tag + rest), tag)
  {
    var s := tag + rest;
    assert TrimLeft(s) == s;
    TrimRightKeepsPrefix(s, |tag|);
    assert TrimSpace(s)[..|tag|] == s[..|tag|] == tag;
  }
}
