/** String operations with the semantics of the JavaScript built-ins the code base
    relies on: `trim`, `toLowerCase`, `split` on one character, `join`, `includes`,
    `startsWith` and `replace` with a string pattern. */
module Text {

  datatype Option<T> = None | Some(value: T)

  /** The characters JavaScript's `trim` removes and the regex class `\s` matches:
      the WhiteSpace and LineTerminator productions of ECMAScript. */
  const Spaces: set<char> := {' ', '\t', '\n', '\r', '\U{000B}', '\U{000C}', '\U{00A0}', '\U{1680}',
    '\U{2000}', '\U{2001}', '\U{2002}', '\U{2003}', '\U{2004}', '\U{2005}', '\U{2006}', '\U{2007}',
    '\U{2008}', '\U{2009}', '\U{200A}', '\U{2028}', '\U{2029}', '\U{202F}', '\U{205F}', '\U{3000}', '\U{FEFF}'}
  predicate IsSpace(c: char) {
    c in Spaces
  }

  /** The characters a regex `.` refuses to match (ECMAScript LineTerminator). */
  predicate IsLineTerminator(c: char) {
    c == '\n' || c == '\r' || c == '\U{2028}' || c == '\U{2029}'
  }

  predicate IsAsciiLetter(c: char) { ('a' <= c <= 'z') || ('A' <= c <= 'Z') }
  predicate IsDigit(c: char) { '0' <= c <= '9' }
  predicate IsAlphaNum(c: char) { IsAsciiLetter(c) || IsDigit(c) }
  /** The regex class `\w`, that is `[a-zA-Z0-9_]`. */
  predicate IsWordChar(c: char) { IsAlphaNum(c) || c == '_' }

  /** `^[a-zA-Z0-9_]+$`: one or more word characters. */
  predicate WordChars(s: string) {
    s != [] && forall i | 0 <= i < |s| :: IsWordChar(s[i])
  }

  /** No white space at either end. */
  predicate Trimmed(s: string) {
    s == [] || (!IsSpace(s[0]) && !IsSpace(s[|s| - 1]))
  }

  predicate AllSpace(s: string) {
    forall i | 0 <= i < |s| :: IsSpace(s[i])
  }

  /** `s.trim()`: leading white space is dropped, then trailing white space. */
  function Trim(s: string): (r: string)
    ensures Trimmed(r)
    ensures |r| <= |s|
    decreases |s|
  {
    if s != [] && IsSpace(s[0]) then Trim(s[1..])
    else if s != [] && IsSpace(s[|s| - 1]) then Trim(s[..|s| - 1])
    else s
  }

  /** Where `Trim(s)` sits inside `s`: an infix with only white space around it. */
  lemma {:induction false} TrimOffset(s: string) returns (i: nat)
    ensures i + |Trim(s)| <= |s| && Trim(s) == s[i..i + |Trim(s)|]
    ensures AllSpace(s[..i]) && AllSpace(s[i + |Trim(s)|..])
    decreases |s|, 1
  {
    if s != [] && IsSpace(s[0]) {
      i := TrimOffsetFront(s);
    } else if s != [] && IsSpace(s[|s| - 1]) {
      i := TrimOffsetBack(s);
    } else {
      assert Trim(s) == s;
      assert s[..0] == [] && s[|s|..] == [];
      i := 0;
    }
  }

  /** `TrimOffset` when `s` starts with white space. */
  lemma {:induction false} TrimOffsetFront(s: string) returns (i: nat)
    requires s != [] && IsSpace(s[0])
    ensures i + |Trim(s)| <= |s| && Trim(s) == s[i..i + |Trim(s)|]
    ensures AllSpace(s[..i]) && AllSpace(s[i + |Trim(s)|..])
    decreases |s|, 0
  {
    var t := s[1..];
    assert Trim(s) == Trim(t);
    var j := TrimOffset(t);
    i := j + 1;
    InfixAfterSpace(s, j, Trim(t));
  }

  /** `TrimOffset` when `s` ends, but does not start, with white space. */
  lemma {:induction false} TrimOffsetBack(s: string) returns (i: nat)
    requires s != [] && !IsSpace(s[0]) && IsSpace(s[|s| - 1])
    ensures i + |Trim(s)| <= |s| && Trim(s) == s[i..i + |Trim(s)|]
    ensures AllSpace(s[..i]) && AllSpace(s[i + |Trim(s)|..])
    decreases |s|, 0
  {
    var t := s[..|s| - 1];
    assert Trim(s) == Trim(t);
    i := TrimOffset(t);
    InfixBeforeSpace(s, i, Trim(t));
  }

  /** An infix of `s[1..]` surrounded by white space, when `s` starts with white space,
      is one of `s` surrounded by white space. */
  lemma InfixAfterSpace(s: string, j: nat, r: string)
    requires s != [] && IsSpace(s[0])
    requires j + |r| <= |s| - 1 && r == s[1..][j..j + |r|]
    requires AllSpace(s[1..][..j]) && AllSpace(s[1..][j + |r|..])
    ensures r == s[j + 1..j + 1 + |r|]
    ensures AllSpace(s[..j + 1]) && AllSpace(s[j + 1 + |r|..])
  {
    var t := s[1..];
    assert t[j..j + |r|] == s[j + 1..j + 1 + |r|];
    assert s[..j + 1] == [s[0]] + t[..j];
    AllSpaceAppend([s[0]], t[..j]);
    assert s[j + 1 + |r|..] == t[j + |r|..];
  }

  /** Its mirror image, for `s[..|s| - 1]` when `s` ends with white space. */
  lemma InfixBeforeSpace(s: string, i: nat, r: string)
    requires s != [] && IsSpace(s[|s| - 1])
    requires i + |r| <= |s| - 1 && r == s[..|s| - 1][i..i + |r|]
    requires AllSpace(s[..|s| - 1][..i]) && AllSpace(s[..|s| - 1][i + |r|..])
    ensures r == s[i..i + |r|]
    ensures AllSpace(s[..i]) && AllSpace(s[i + |r|..])
  {
    var t := s[..|s| - 1];
    assert t[i..i + |r|] == s[i..i + |r|];
    assert s[..i] == t[..i];
    assert s[i + |r|..] == t[i + |r|..] + [s[|s| - 1]];
    AllSpaceAppend(t[i + |r|..], [s[|s| - 1]]);
  }

  lemma AllSpaceAppend(a: string, b: string)
    requires AllSpace(a) && AllSpace(b)
    ensures AllSpace(a + b)
  {
    forall k | 0 <= k < |a + b| ensures IsSpace((a + b)[k]) {
      if k < |a| {
        assert (a + b)[k] == a[k];
      } else {
        assert (a + b)[k] == b[k - |a|];
      }
    }
  }

  lemma TrimOfTrimmed(s: string)
    requires Trimmed(s)
    ensures Trim(s) == s
  {
  }

  lemma {:induction false} TrimEmptyIffAllSpace(s: string)
    ensures Trim(s) == [] <==> AllSpace(s)
    decreases |s|
  {
    if Trim(s) == [] {
      var i := TrimOffset(s);
      var pre, post := s[..i], s[i..];
      forall k | 0 <= k < |s| ensures IsSpace(s[k]) {
        if k < i {
          assert s[k] == pre[k];
        } else {
          assert s[k] == post[k - i];
        }
      }
    }
    if AllSpace(s) && s != [] {
      var t := s[1..];
      assert AllSpace(t) by {
        forall k | 0 <= k < |t| ensures IsSpace(t[k]) {
          assert t[k] == s[k + 1];
        }
      }
      TrimEmptyIffAllSpace(t);
    }
  }

  lemma TrimIdempotent(s: string)
    ensures Trim(Trim(s)) == Trim(s)
  {
    TrimOfTrimmed(Trim(s));
  }

  /** Padding made of white space on the left vanishes under `trim`. */
  lemma {:induction false} TrimPadLeft(pad: string, t: string)
    requires AllSpace(pad) && Trimmed(t)
    ensures Trim(pad + t) == t
    decreases |pad|
  {
    var s := pad + t;
    if pad == [] {
      assert s == t;
      TrimOfTrimmed(t);
    } else {
      assert s[0] == pad[0];
      assert s[1..] == pad[1..] + t;
      assert AllSpace(pad[1..]);
      TrimPadLeft(pad[1..], t);
    }
  }

  /** `r` is what is left of `s` once white space is cut from both ends: a trimmed
      infix of `s` with only white space before and after it. */
  predicate TrimOf(r: string, s: string) {
    Trimmed(r) &&
    exists i | 0 <= i <= |s| - |r| :: s[i..i + |r|] == r && AllSpace(s[..i]) && AllSpace(s[i + |r|..])
  }

  lemma TrimIsTrimOf(s: string)
    ensures TrimOf(Trim(s), s)
  {
    var i := TrimOffset(s);
    assert s[i..i + |Trim(s)|] == Trim(s) && AllSpace(s[..i]) && AllSpace(s[i + |Trim(s)|..]);
  }

  /** There is only one trimmed infix between all-space margins, so `TrimOf` defines
      `trim` independently of how it is computed. */
  lemma TrimOfUnique(r: string, s: string)
    requires TrimOf(r, s)
    ensures r == Trim(s)
  {
    var i := TrimOffset(s);
    var j :| 0 <= j <= |s| - |r| && s[j..j + |r|] == r && AllSpace(s[..j]) && AllSpace(s[j + |r|..]);
    SameInfix(s, r, j, Trim(s), i);
  }

  /** Two trimmed infixes of `s`, each between all-space margins, are the same. */
  lemma SameInfix(s: string, r: string, j: nat, t: string, i: nat)
    requires Trimmed(r) && j + |r| <= |s| && s[j..j + |r|] == r && AllSpace(s[..j]) && AllSpace(s[j + |r|..])
    requires Trimmed(t) && i + |t| <= |s| && s[i..i + |t|] == t && AllSpace(s[..i]) && AllSpace(s[i + |t|..])
    ensures r == t
  {
    if t != [] {
      assert s[i] == t[0] && s[i + |t| - 1] == t[|t| - 1];
      InsideSpan(s, j, j + |r|, i);
      InsideSpan(s, j, j + |r|, i + |t| - 1);
      assert s[j] == r[0] && s[j + |r| - 1] == r[|r| - 1];
      InsideSpan(s, i, i + |t|, j);
      InsideSpan(s, i, i + |t|, j + |r| - 1);
      assert i == j && |t| == |r|;
    } else if r != [] {
      assert s[j] == r[0];
      InsideSpan(s, i, i, j);
    }
  }

  /** A character of `s` outside the span `j..e` is white space when the margins
      `s[..j]` and `s[e..]` are. */
  lemma InsideSpan(s: string, j: nat, e: nat, k: nat)
    requires j <= e <= |s| && AllSpace(s[..j]) && AllSpace(s[e..]) && k < |s|
    ensures k < j || e <= k ==> IsSpace(s[k])
  {
    if k < j {
      assert s[k] == s[..j][k];
    } else if e <= k {
      assert s[k] == s[e..][k - e];
    }
  }

  function LowerChar(c: char): char {
    if 'A' <= c <= 'Z' then (c as int + 32) as char else c
  }

  /** `s.toLowerCase()` restricted to ASCII letters. */
  function ToLower(s: string): (r: string)
    ensures |r| == |s|
    ensures forall i | 0 <= i < |s| :: r[i] == LowerChar(s[i])
  {
    if s == [] then [] else [LowerChar(s[0])] + ToLower(s[1..])
  }

  predicate NoUpper(s: string) {
    forall i | 0 <= i < |s| :: !('A' <= s[i] <= 'Z')
  }

  lemma ToLowerProperties(s: string)
    ensures NoUpper(ToLower(s))
    ensures ToLower(ToLower(s)) == ToLower(s)
    ensures NoUpper(s) ==> ToLower(s) == s
  {
  }

  /** Lowercasing does not touch white space, so it commutes with `trim`. */
  lemma ToLowerKeepsSpaces(s: string)
    ensures forall i | 0 <= i < |s| :: IsSpace(ToLower(s)[i]) <==> IsSpace(s[i])
  {
    var l := ToLower(s);
    forall i | 0 <= i < |s| ensures IsSpace(l[i]) <==> IsSpace(s[i]) {
      LowerCharKeepsSpace(s[i]);
    }
  }

  lemma LowerCharKeepsSpace(c: char)
    ensures IsSpace(LowerChar(c)) <==> IsSpace(c)
  {
    if 'A' <= c <= 'Z' {
      assert !IsSpace(c) && !IsSpace(LowerChar(c));
    }
  }

  /** Lowercasing then trimming leaves no capital letter. */
  lemma LowerTrimNoUpper(t: string)
    ensures NoUpper(Trim(ToLower(t)))
  {
    var l := ToLower(t);
    var r := Trim(l);
    ToLowerProperties(t);
    var i := TrimOffset(l);
    forall j | 0 <= j < |r| ensures !('A' <= r[j] <= 'Z') {
      assert r[j] == l[i + j];
    }
  }

  /** `s.startsWith(p)` */
  predicate StartsWith(s: string, p: string) {
    |p| <= |s| && s[..|p|] == p
  }

  /** `s.includes(sub)`: `sub` occurs in `s` at some position. */
  predicate Contains(s: string, sub: string)
    decreases |s|
  {
    StartsWith(s, sub) || (s != [] && Contains(s[1..], sub))
  }

  lemma EmptyContained(s: string)
    ensures Contains(s, "")
  {
    assert StartsWith(s, "");
  }

  /** The first position of `c` in `s`. */
  function IndexOf(s: string, c: char): (k: nat)
    requires c in s
    ensures k < |s| && s[k] == c && c !in s[..k]
  {
    if s[0] == c then 0 else 1 + IndexOf(s[1..], c)
  }

  /** `s.split(sep)` for a one-character separator: the pieces between separators,
      empty pieces included; `"".split(sep)` is `[""]`. */
  function Split(s: string, sep: char): (parts: seq<string>)
    ensures |parts| >= 1
    ensures forall k | 0 <= k < |parts| :: sep !in parts[k]
    decreases |s|
  {
    if sep !in s then [s]
    else
      var i := IndexOf(s, sep);
      [s[..i]] + Split(s[i + 1..], sep)
  }

  /** `parts.join(sep)` */
  function Join(parts: seq<string>, sep: string): string {
    if parts == [] then ""
    else if |parts| == 1 then parts[0]
    else parts[0] + sep + Join(parts[1..], sep)
  }

  /** Splitting and joining with the same character are inverse. */
  lemma {:induction false} JoinSplit(s: string, sep: char)
    ensures Join(Split(s, sep), [sep]) == s
    decreases |s|
  {
    if sep in s {
      var i := IndexOf(s, sep);
      var rest := Split(s[i + 1..], sep);
      SplitAt(s, sep, i);
      JoinCons(s[..i], rest, [sep]);
      JoinSplit(s[i + 1..], sep);
      AroundIndex(s, i);
    }
  }

  lemma AroundIndex(s: string, i: nat)
    requires i < |s|
    ensures s == s[..i] + [s[i]] + s[i + 1..]
  {
  }

  lemma JoinCons(first: string, rest: seq<string>, sep: string)
    requires rest != []
    ensures Join([first] + rest, sep) == first + sep + Join(rest, sep)
  {
    assert ([first] + rest)[1..] == rest;
  }

  /** Every part after the first, with `pad` in front. */
  function Padded(pad: string, parts: seq<string>): (r: seq<string>)
    ensures |r| == |parts|
    ensures forall k | 0 <= k < |parts| :: r[k] == pad + parts[k]
  {
    if parts == [] then [] else [pad + parts[0]] + Padded(pad, parts[1..])
  }

  /** The first position of `c` is the only position with no `c` before it. */
  lemma {:induction false} IndexOfUnique(s: string, c: char, k: nat)
    requires k < |s| && s[k] == c && c !in s[..k]
    ensures IndexOf(s, c) == k
  {
    if k > 0 {
      assert s[0] == s[..k][0];
      assert s[1..][..k - 1] == s[..k][1..];
      IndexOfUnique(s[1..], c, k - 1);
    }
  }

  /** Joining with `sep` followed by `pad`, then splitting on `sep`, gives back the parts
      with `pad` in front of every one but the first, as long as neither the parts
      nor `pad` contain `sep`. */
  lemma {:induction false} SplitJoin(parts: seq<string>, sep: char, pad: string)
    requires parts != []
    requires forall k | 0 <= k < |parts| :: sep !in parts[k]
    requires sep !in pad
    ensures Split(Join(parts, [sep] + pad), sep) == [parts[0]] + Padded(pad, parts[1..])
    decreases |parts|
  {
    if |parts| > 1 {
      var tail := parts[1..];
      var rest := Join(tail, [sep] + pad);
      var s := parts[0] + ([sep] + pad) + rest;
      assert Join(parts, [sep] + pad) == s;
      assert s[|parts[0]|] == sep;
      assert s[..|parts[0]|] == parts[0];
      IndexOfUnique(s, sep, |parts[0]|);
      assert s[|parts[0]| + 1..] == pad + rest;
      SplitJoin(tail, sep, pad);
      SplitPadFront(pad, tail, sep);
    }
  }

  /** Splitting `pad + Join(tail)` only changes the first piece. */
  lemma SplitPadFront(pad: string, tail: seq<string>, sep: char)
    requires tail != []
    requires sep !in pad
    requires Split(Join(tail, [sep] + pad), sep) == [tail[0]] + Padded(pad, tail[1..])
    ensures Split(pad + Join(tail, [sep] + pad), sep) == Padded(pad, tail)
  {
    SplitPrefixFree(pad, Join(tail, [sep] + pad), sep);
  }

  /** Putting a prefix without the separator in front only extends the first piece. */
  lemma SplitPrefixFree(pad: string, j: string, sep: char)
    requires sep !in pad
    ensures Split(pad + j, sep) == [pad + Split(j, sep)[0]] + Split(j, sep)[1..]
  {
    if sep !in j {
      NotInAppend(pad, j, sep);
    } else {
      SplitPrefixFreeAt(pad, j, sep);
    }
  }

  /** `SplitPrefixFree` when `j` holds the separator: the first one is `|pad|` further. */
  lemma SplitPrefixFreeAt(pad: string, j: string, sep: char)
    requires sep !in pad && sep in j
    ensures Split(pad + j, sep) == [pad + Split(j, sep)[0]] + Split(j, sep)[1..]
  {
    var ij := IndexOf(j, sep);
    SplitAt(j, sep, ij);
    var s := pad + j;
    var i := |pad| + ij;
    assert s[i] == sep;
    assert s[..i] == pad + j[..ij];
    NotInAppend(pad, j[..ij], sep);
    SplitAt(s, sep, i);
    assert s[i + 1..] == j[ij + 1..];
  }

  /** Splitting at the first separator, at `i`. */
  lemma SplitAt(s: string, sep: char, i: nat)
    requires i < |s| && s[i] == sep && sep !in s[..i]
    ensures Split(s, sep) == [s[..i]] + Split(s[i + 1..], sep)
    ensures Split(s, sep)[0] == s[..i] && Split(s, sep)[1..] == Split(s[i + 1..], sep)
  {
    IndexOfUnique(s, sep, i);
  }

  lemma NotInAppend(a: string, b: string, c: char)
    requires c !in a && c !in b
    ensures c !in a + b
  {
    forall k | 0 <= k < |a + b| ensures (a + b)[k] != c {
      if k < |a| { assert (a + b)[k] == a[k]; } else { assert (a + b)[k] == b[k - |a|]; }
    }
  }

  /** The first non-empty string of `vals`, in list order: the value of a JavaScript
      `a || b || ...` chain over strings, `None` when every operand is "". */
  function FirstNonEmpty(vals: seq<string>): (r: Option<string>)
    ensures r.Some? ==> r.value != [] && r.value in vals
    ensures r.None? <==> forall k | 0 <= k < |vals| :: vals[k] == []
  {
    if vals == [] then None
    else if vals[0] != [] then Some(vals[0])
    else FirstNonEmpty(vals[1..])
  }

  /** The value picked is the one at the first position holding a non-empty string. */
  lemma {:induction false} FirstNonEmptyAt(vals: seq<string>, k: nat)
    requires k < |vals| && vals[k] != []
    requires forall j | 0 <= j < k :: vals[j] == []
    ensures FirstNonEmpty(vals) == Some(vals[k])
  {
    if k > 0 {
      FirstNonEmptyAt(vals[1..], k - 1);
    }
  }

  /** `vals[0] || ... || last`: the first non-empty operand, else the last one. */
  function Or(vals: seq<string>, last: string): (r: string)
    ensures r == last || r in vals
    ensures (forall k | 0 <= k < |vals| :: vals[k] == []) ==> r == last
  {
    match FirstNonEmpty(vals)
    case Some(v) => v
    case None => last
  }

  /** `s.replace(pat, "")`: removes the first occurrence of `pat`, if any. */
  function RemoveFirst(s: string, pat: string): (r: string)
    decreases |s|
  {
    if StartsWith(s, pat) then s[|pat|..]
    else if s == [] then []
    else [s[0]] + RemoveFirst(s[1..], pat)
  }

  lemma {:induction false} RemoveFirstPrefix(x: string, pat: string)
    ensures RemoveFirst(pat + x, pat) == x
  {
    assert StartsWith(pat + x, pat);
    assert (pat + x)[|pat|..] == x;
  }

  lemma {:induction false} RemoveFirstAbsent(s: string, pat: string)
    requires !Contains(s, pat)
    ensures RemoveFirst(s, pat) == s
    decreases |s|
  {
    if s != [] {
      RemoveFirstAbsent(s[1..], pat);
    }
  }

  // ---------------------------------------------------------------------------
  // Lengths

  /** The UTF-16 code units JavaScript stores for one character: a surrogate pair for
      a character outside the Basic Multilingual Plane, one unit otherwise. */
  function Units(c: char): (n: nat)
    ensures n == 1 <==> c as int < 0x1_0000
    ensures n == 1 || n == 2
  {
    if c as int < 0x1_0000 then 1 else 2
  }

  /** Every character of `s` is a single code unit. */
  predicate Bmp(s: string) {
    forall i | 0 <= i < |s| :: Units(s[i]) == 1
  }

  /** `s.length` in JavaScript, and Mongoose's `maxlength`: UTF-16 code units. */
  function Utf16Length(s: string): (n: nat)
    ensures |s| <= n <= 2 * |s|
    ensures n == |s| <==> Bmp(s)
  {
    if s == [] then 0
    else
      var n := Units(s[0]) + Utf16Length(s[1..]);
      assert Bmp(s) <==> Units(s[0]) == 1 && Bmp(s[1..]) by {
        assert forall i | 1 <= i < |s| :: s[i] == s[1..][i - 1];
      }
      n
  }

  /** `s.substring(0, n)` on whole characters: the longest prefix of `s` that fits in
      `n` code units. */
  function Utf16Prefix(s: string, n: nat): (p: string)
    ensures p <= s && Utf16Length(p) <= n
    ensures p != s ==> Utf16Length(p) + Units(s[|p|]) > n
    ensures Utf16Length(s) <= n <==> p == s
  {
    if s == [] || Units(s[0]) > n then []
    else
      var p := [s[0]] + Utf16Prefix(s[1..], n - Units(s[0]));
      assert p[1..] == Utf16Prefix(s[1..], n - Units(s[0]));
      p
  }

  /** On characters of one code unit each, the prefix is the plain slice. */
  lemma {:induction false} Utf16PrefixBmp(s: string, n: nat)
    requires Bmp(s)
    ensures Utf16Prefix(s, n) == if |s| <= n then s else s[..n]
  {
    if s != [] && n > 0 {
      assert Bmp(s[1..]) by {
        assert forall i | 0 <= i < |s| - 1 :: s[1..][i] == s[i + 1];
      }
      Utf16PrefixBmp(s[1..], n - 1);
      if |s| > n {
        assert s[..n] == [s[0]] + s[1..][..n - 1];
      }
    }
  }

  predicate IsVariationSelector(c: char) {
    c == '\U{FE0E}' || c == '\U{FE0F}'
  }

  /** The length validator.js's `isLength` measures: the UTF-16 length less one for
      every surrogate pair and for every variation selector U+FE0E or U+FE0F, which
      is the number of characters that are not variation selectors. */
  function IsLengthCount(s: string): (n: nat)
    ensures n <= |s| <= Utf16Length(s)
    ensures (forall i | 0 <= i < |s| :: !IsVariationSelector(s[i])) ==> n == |s|
  {
    if s == [] then 0
    else
      assert forall i | 1 <= i < |s| :: s[i] == s[1..][i - 1];
      (if IsVariationSelector(s[0]) then 0 else 1) + IsLengthCount(s[1..])
  }

  // ---------------------------------------------------------------------------
  // Filtering

  /** `a` is `b` with some elements left out, in the same order. */
  predicate IsSubsequence<T(==)>(a: seq<T>, b: seq<T>)
    decreases |b|
  {
    a == [] || (b != [] && (if a[0] == b[0] then IsSubsequence(a[1..], b[1..]) else IsSubsequence(a, b[1..])))
  }

  lemma {:induction false} SubsequenceSkip<T>(a: seq<T>, b: seq<T>)
    requires b != [] && IsSubsequence(a, b[1..])
    ensures IsSubsequence(a, b)
    decreases |b|, 0
  {
    if a != [] && a[0] == b[0] {
      SubsequenceTail(a, b[1..]);
    }
  }

  lemma {:induction false} SubsequenceTail<T>(a: seq<T>, b: seq<T>)
    requires a != [] && IsSubsequence(a, b)
    ensures IsSubsequence(a[1..], b)
    decreases |b|, 1
  {
    if a[0] == b[0] {
      if a[1..] != [] {
        SubsequenceTail(a[1..], b[1..]);
        SubsequenceSkip(a[1..], b);
      }
    } else {
      SubsequenceTail(a, b[1..]);
      if a[1..] != [] {
        SubsequenceSkip(a[1..], b);
      }
    }
  }

  /** `parts.filter(p => p)`: drops the empty pieces and keeps every other piece, as
      often as it occurs. */
  function DropEmpty(parts: seq<string>): (r: seq<string>)
    ensures forall k | 0 <= k < |r| :: r[k] != [] && r[k] in parts
    ensures forall k | 0 <= k < |parts| && parts[k] != [] :: parts[k] in r
    ensures IsSubsequence(r, parts) && |r| <= |parts|
  {
    if parts == [] then []
    else
      assert parts == [parts[0]] + parts[1..];
      var rest := DropEmpty(parts[1..]);
      if parts[0] == [] then
        SubsequenceSkip(rest, parts);
        rest
      else
        assert ([parts[0]] + rest)[1..] == rest;
        [parts[0]] + rest
  }

  /** Every non-empty piece is kept as often as it occurs. */
  lemma {:induction false} DropEmptyCounts(parts: seq<string>, x: string)
    requires x != []
    ensures multiset(DropEmpty(parts))[x] == multiset(parts)[x]
  {
    if parts != [] {
      assert parts == [parts[0]] + parts[1..];
      DropEmptyCounts(parts[1..], x);
    }
  }

  /** Filtering a concatenation filters each part in place, so the pieces kept stay in
      their order. */
  lemma {:induction false} DropEmptyAppend(a: seq<string>, b: seq<string>)
    ensures DropEmpty(a + b) == DropEmpty(a) + DropEmpty(b)
  {
    if a != [] {
      assert (a + b)[0] == a[0] && (a + b)[1..] == a[1..] + b;
      DropEmptyAppend(a[1..], b);
    } else {
      assert a + b == b;
    }
  }

  /** Nothing is dropped when no piece is empty. */
  lemma {:induction false} DropEmptyNone(parts: seq<string>)
    requires forall k | 0 <= k < |parts| :: parts[k] != []
    ensures DropEmpty(parts) == parts
  {
    if parts != [] {
      DropEmptyNone(parts[1..]);
    }
  }
}
