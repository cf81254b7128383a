/** Greedy runs of characters, as a regex `[^\/]*` or `.*` takes them: where each
    run ends and when a given position is that end. */
module Runs {
  import opened Text

  /** End of the longest run of non-`/` characters starting at `i`. */
  function NonSlashEnd(s: string, i: nat): (e: nat)
    requires i <= |s|
    ensures i <= e <= |s|
    ensures forall j | i <= j < e :: s[j] != '/'
    ensures e < |s| ==> s[e] == '/'
    decreases |s| - i
  {
    if i == |s| || s[i] == '/' then i else NonSlashEnd(s, i + 1)
  }

  /** End of the longest run of characters a regex `.` matches, starting at `i`. */
  function LineEnd(s: string, i: nat): (e: nat)
    requires i <= |s|
    ensures i <= e <= |s|
    ensures forall j | i <= j < e :: !IsLineTerminator(s[j])
    ensures e < |s| ==> IsLineTerminator(s[e])
    decreases |s| - i
  {
    if i == |s| || IsLineTerminator(s[i]) then i else LineEnd(s, i + 1)
  }

  lemma {:induction false} NonSlashEndAll(s: string, i: nat)
    requires i <= |s| && forall j | i <= j < |s| :: s[j] != '/'
    ensures NonSlashEnd(s, i) == |s|
    decreases |s| - i
  {
    if i < |s| {
      NonSlashEndAll(s, i + 1);
    }
  }

  lemma {:induction false} LineEndAll(s: string, i: nat)
    requires i <= |s| && forall j | i <= j < |s| :: !IsLineTerminator(s[j])
    ensures LineEnd(s, i) == |s|
    decreases |s| - i
  {
    if i < |s| {
      LineEndAll(s, i + 1);
    }
  }

  lemma {:induction false} NonSlashEndAt(s: string, i: nat, e: nat)
    requires i <= e < |s| && s[e] == '/'
    requires forall j | i <= j < e :: s[j] != '/'
    ensures NonSlashEnd(s, i) == e
    decreases e - i
  {
    if i < e {
      NonSlashEndAt(s, i + 1, e);
    }
  }
}
