/** String helpers shared by the skill matcher (app/services/utils.py) and the
    sign-up page (frontend/js/auth.js): ASCII lower-casing, the
    `[^a-zA-Z0-9 ]` filter, splitting on a separator, joining and trimming. */
module Text {

  predicate IsUpper(c: char) { 'A' <= c <= 'Z' }

  /** `str.lower()` on one character (ASCII letters only). */
  function Lower(c: char): (r: char)
    ensures !IsUpper(r)
    ensures IsUpper(c) ==> r as int == c as int + 32
    ensures !IsUpper(c) ==> r == c
  {
    if IsUpper(c) then (c as int + 32) as char else c
  }

  function LowerStr(s: string): (r: string)
    ensures |r| == |s|
    ensures forall i :: 0 <= i < |s| ==> r[i] == Lower(s[i])
  {
    seq(|s|, i requires 0 <= i < |s| => Lower(s[i]))
  }

  /** The characters the pattern `[^a-zA-Z0-9 ]` does not delete. */
  predicate IsAlnumSpace(c: char) {
    'a' <= c <= 'z' || 'A' <= c <= 'Z' || '0' <= c <= '9' || c == ' '
  }

  /** The characters `clean_text` may return: lower-case letters, digits, space. */
  predicate IsCleanChar(c: char) {
    'a' <= c <= 'z' || '0' <= c <= '9' || c == ' '
  }

  /** `re.sub(r"[^a-zA-Z0-9 ]", "", s)`: the kept characters, in order. */
  function KeepAlnumSpace(s: string): (r: string)
    ensures |r| <= |s|
    ensures forall i :: 0 <= i < |r| ==> IsAlnumSpace(r[i]) && r[i] in s
    ensures forall c :: c in s && IsAlnumSpace(c) ==> c in r
  {
    if s == [] then []
    else
      assert forall c :: c in s ==> c == s[0] || c in s[1..];
      (if IsAlnumSpace(s[0]) then [s[0]] else []) + KeepAlnumSpace(s[1..])
  }

  /** The filter works character by character: filtering a concatenation
      filters each part. */
  lemma {:induction false} KeepAlnumSpaceAppend(a: string, b: string)
    ensures KeepAlnumSpace(a + b) == KeepAlnumSpace(a) + KeepAlnumSpace(b)
    decreases |a|
  {
    if a == [] {
      assert a + b == b;
    } else {
      assert (a + b)[0] == a[0] && (a + b)[1..] == a[1..] + b;
      KeepAlnumSpaceAppend(a[1..], b);
      assert KeepAlnumSpace(a + b)
          == (if IsAlnumSpace(a[0]) then [a[0]] else []) + (KeepAlnumSpace(a[1..]) + KeepAlnumSpace(b));
    }
  }

  /** `clean_text` (utils.py:32-33): lower-case, then delete everything but letters, digits and spaces. */
  function CleanText(s: string): (r: string)
    ensures forall i :: 0 <= i < |r| ==> IsCleanChar(r[i])
    ensures |r| <= |s|
    ensures forall c :: c in s && IsAlnumSpace(c) ==> Lower(c) in r
  {
    var lowered := LowerStr(s);
    var r := KeepAlnumSpace(lowered);
    assert forall c :: c in s ==> Lower(c) in lowered by {
      forall c | c in s ensures Lower(c) in lowered {
        var j :| 0 <= j < |s| && s[j] == c;
        assert lowered[j] == Lower(c);
      }
    }
    assert forall i :: 0 <= i < |r| ==> !IsUpper(r[i]) by {
      forall i | 0 <= i < |r| ensures !IsUpper(r[i]) {
        var j :| 0 <= j < |lowered| && lowered[j] == r[i];
      }
    }
    r
  }

  lemma {:induction false} LowerStrOfLower(s: string)
    requires forall i :: 0 <= i < |s| ==> !IsUpper(s[i])
    ensures LowerStr(s) == s
  {
    assert forall i :: 0 <= i < |s| ==> LowerStr(s)[i] == s[i];
  }

  lemma {:induction false} KeepAlnumSpaceOfKept(s: string)
    requires forall i :: 0 <= i < |s| ==> IsAlnumSpace(s[i])
    ensures KeepAlnumSpace(s) == s
    decreases |s|
  {
    if s != [] {
      KeepAlnumSpaceOfKept(s[1..]);
      assert [s[0]] + s[1..] == s;
    }
  }

  /** Cleaning is idempotent, and a string is left unchanged exactly when it
      is already made of clean characters. */
  lemma CleanTextIdempotent(s: string)
    ensures CleanText(CleanText(s)) == CleanText(s)
  {
    CleanTextFixesClean(CleanText(s));
  }

  /** Cleaning works character by character: cleaning a concatenation
      cleans each part, so a text's words are cleaned independently. */
  lemma CleanTextAppend(a: string, b: string)
    ensures CleanText(a + b) == CleanText(a) + CleanText(b)
  {
    assert LowerStr(a + b) == LowerStr(a) + LowerStr(b);
    KeepAlnumSpaceAppend(LowerStr(a), LowerStr(b));
  }

  /** A single character is lowered and kept when it is a letter, digit or
      space, and deleted otherwise. */
  lemma CleanTextChar(c: char)
    ensures CleanText([c]) == if IsAlnumSpace(c) then [Lower(c)] else []
  {
    assert LowerStr([c]) == [Lower(c)];
    assert KeepAlnumSpace([Lower(c)]) == (if IsAlnumSpace(Lower(c)) then [Lower(c)] else []) + KeepAlnumSpace([]);
  }

  lemma CleanTextFixesClean(t: string)
    ensures CleanText(t) == t <==> forall i :: 0 <= i < |t| ==> IsCleanChar(t[i])
  {
    if forall i :: 0 <= i < |t| ==> IsCleanChar(t[i]) {
      LowerStrOfLower(t);
      KeepAlnumSpaceOfKept(t);
    }
  }

  /** Number of occurrences of `c` in `s`. */
  function Count(s: string, c: char): nat {
    if s == [] then 0 else (if s[0] == c then 1 else 0) + Count(s[1..], c)
  }

  /** `s.split(sep)` in both Python and JavaScript: the pieces between
      separators, empty ones included, so `n` separators give `n + 1` pieces. */
  function SplitOn(s: string, sep: char): (r: seq<string>)
    ensures |r| == Count(s, sep) + 1
    ensures forall k :: 0 <= k < |r| ==> sep !in r[k]
    decreases |s|
  {
    if s == [] then [""]
    else
      var rest := SplitOn(s[1..], sep);
      if s[0] == sep then [""] + rest else [[s[0]] + rest[0]] + rest[1..]
  }

  /** `sep.join(parts)`. */
  function Join(parts: seq<string>, sep: char): string {
    if |parts| == 0 then ""
    else if |parts| == 1 then parts[0]
    else parts[0] + [sep] + Join(parts[1..], sep)
  }

  /** Joining the pieces of a split gives the original string back. */
  lemma {:induction false} JoinSplit(s: string, sep: char)
    ensures Join(SplitOn(s, sep), sep) == s
    decreases |s|
  {
    if s != [] {
      var rest := SplitOn(s[1..], sep);
      JoinSplit(s[1..], sep);
      if s[0] == sep {
        assert SplitOn(s, sep) == [""] + rest;
        assert ([""] + rest)[1..] == rest;
      } else {
        var parts := [[s[0]] + rest[0]] + rest[1..];
        assert SplitOn(s, sep) == parts;
        if |rest| == 1 {
          assert Join(rest, sep) == rest[0];
        } else {
          assert parts[1..] == rest[1..];
          assert Join(rest, sep) == rest[0] + [sep] + Join(rest[1..], sep);
        }
      }
    }
  }

  lemma {:induction false} SplitWithoutSep(s: string, sep: char)
    requires sep !in s
    ensures SplitOn(s, sep) == [s]
    decreases |s|
  {
    if s != [] {
      SplitWithoutSep(s[1..], sep);
      assert [s[0]] + s[1..] == s;
    }
  }

  lemma {:induction false} SplitAfterPiece(p: string, sep: char, t: string)
    requires sep !in p
    ensures SplitOn(p + [sep] + t, sep) == [p] + SplitOn(t, sep)
    decreases |p|
  {
    var s := p + [sep] + t;
    if p == [] {
      assert s[1..] == t;
    } else {
      assert s[1..] == p[1..] + [sep] + t;
      SplitAfterPiece(p[1..], sep, t);
      assert [p[0]] + p[1..] == p;
    }
  }

  /** Splitting a join of separator-free pieces gives the pieces back. */
  lemma {:induction false} SplitJoin(parts: seq<string>, sep: char)
    requires |parts| >= 1
    requires forall k :: 0 <= k < |parts| ==> sep !in parts[k]
    ensures SplitOn(Join(parts, sep), sep) == parts
    decreases |parts|
  {
    if |parts| == 1 {
      SplitWithoutSep(parts[0], sep);
    } else {
      SplitJoin(parts[1..], sep);
      SplitAfterPiece(parts[0], sep, Join(parts[1..], sep));
      assert [parts[0]] + parts[1..] == parts;
    }
  }

  /** The pieces of a split that are not empty, in order. */
  function NonEmpty(parts: seq<string>): (r: seq<string>)
    ensures |r| <= |parts|
    ensures forall k :: 0 <= k < |r| ==> r[k] != "" && r[k] in parts
    ensures forall p :: p in parts && p != "" ==> p in r
  {
    if parts == [] then []
    else (if parts[0] != "" then [parts[0]] else []) + NonEmpty(parts[1..])
  }

  /** `s.split()` applied to text that holds no whitespace but spaces. */
  function Words(s: string): seq<string> {
    NonEmpty(SplitOn(s, ' '))
  }

  /** ASCII whitespace, the part of Python's `strip()` and JavaScript's
      `trim()` set this model covers. */
  predicate IsSpace(c: char) {
    c == ' ' || '\t' <= c <= '\r'
  }

  function TrimStart(s: string): (r: string)
    ensures r == [] || !IsSpace(r[0])
    ensures forall c :: c in r ==> c in s
    ensures |r| <= |s| && r == s[|s| - |r|..]
    ensures forall k :: 0 <= k < |s| - |r| ==> IsSpace(s[k])
    ensures !(s != [] && IsSpace(s[0])) ==> r == s
    decreases |s|
  {
    if s != [] && IsSpace(s[0]) then TrimStart(s[1..]) else s
  }

  function TrimEnd(s: string): (r: string)
    ensures r == [] || !IsSpace(r[|r| - 1])
    ensures |r| <= |s| && r == s[..|r|]
    ensures forall k :: |r| <= k < |s| ==> IsSpace(s[k])
    ensures !(s != [] && IsSpace(s[|s| - 1])) ==> r == s
    decreases |s|
  {
    if s != [] && IsSpace(s[|s| - 1]) then TrimEnd(s[..|s| - 1]) else s
  }

  predicate Trimmed(s: string) {
    s == [] || (!IsSpace(s[0]) && !IsSpace(s[|s| - 1]))
  }

  /** `str.strip()` / `String.prototype.trim()`. */
  function Trim(s: string): (r: string)
    ensures Trimmed(r)
    ensures forall c :: c in r ==> c in s
    ensures Trimmed(s) ==> r == s
    ensures exists a, b :: OuterSpace(s, a, b) && r == s[a..b]
  {
    var t := TrimStart(s);
    var r := TrimEnd(t);
    assert forall c :: c in r ==> c in t by {
      forall c | c in r ensures c in t {
        var i :| 0 <= i < |r| && r[i] == c;
        assert t[i] == c;
      }
    }
    assert r != [] ==> r[0] == t[0];
    MiddleSlice(s, t, r);
    r
  }

  /** `s[..a]` and `s[b..]` are whitespace. */
  predicate OuterSpace(s: string, a: int, b: int) {
    && 0 <= a <= b <= |s|
    && (forall k :: 0 <= k < a ==> IsSpace(s[k]))
    && (forall k :: b <= k < |s| ==> IsSpace(s[k]))
  }

  /** A prefix `r` of a suffix `t` of `s`, where what was cut off is
      whitespace, is a middle slice of `s` with whitespace around it. */
  lemma MiddleSlice(s: string, t: string, r: string)
    requires |t| <= |s| && t == s[|s| - |t|..]
    requires forall k :: 0 <= k < |s| - |t| ==> IsSpace(s[k])
    requires |r| <= |t| && r == t[..|r|]
    requires forall k :: |r| <= k < |t| ==> IsSpace(t[k])
    ensures OuterSpace(s, |s| - |t|, |s| - |t| + |r|) && r == s[|s| - |t|..|s| - |t| + |r|]
  {
    var a, b := |s| - |t|, |s| - |t| + |r|;
    forall k | b <= k < |s| ensures IsSpace(s[k]) {
      assert s[k] == t[k - a];
    }
  }
}
