/**
  `String.prototype.trim` as the form's completeness test uses it: strip the
  ECMAScript white-space and line-terminator characters from both ends.
 */
module JsText {

  /**
    ECMAScript WhiteSpace (tab, vertical tab, form feed, space, no-break space,
    byte-order mark and the Unicode space separators) and LineTerminator
    (line feed, carriage return, line and paragraph separators).
   */
  predicate IsWhitespace(c: char) {
    c == '\U{9}' || c == '\U{B}' || c == '\U{C}' || c == ' ' || c == '\U{A0}' || c == '\U{FEFF}'
    || c == '\U{1680}' || ('\U{2000}' <= c <= '\U{200A}') || c == '\U{202F}' || c == '\U{205F}'
    || c == '\U{3000}'
    || c == '\n' || c == '\r' || c == '\U{2028}' || c == '\U{2029}'
  }

  /** Every character of `s` is white space. */
  predicate AllWhitespace(s: string) {
    forall i :: 0 <= i < |s| ==> IsWhitespace(s[i])
  }

  /**
    `s.trim()`: `s` with its leading and trailing white space removed, one character
    at a time from either end.
   */
  function Trim(s: string): (r: string)
    ensures |r| <= |s|
    ensures r != [] ==> !IsWhitespace(r[0]) && !IsWhitespace(r[|r| - 1])
    decreases |s|
  {
    if s == [] then s
    else if IsWhitespace(s[0]) then Trim(s[1..])
    else if IsWhitespace(s[|s| - 1]) then Trim(s[..|s| - 1])
    else s
  }

  /** `r` is the slice of `s` starting at `i` with only white space before and after it. */
  predicate TrimmedAt(s: string, i: int, r: string) {
    0 <= i <= |s| - |r| && r == s[i..i + |r|]
    && AllWhitespace(s[..i]) && AllWhitespace(s[i + |r|..])
  }

  /**
    `s.trim()` is a slice of `s` with only white space before and after it
    (`TrimUnique` shows that, with `Trim`'s own contract, this pins the result).
   */
  lemma {:induction false} TrimSpec(s: string)
    ensures exists i :: TrimmedAt(s, i, Trim(s))
    decreases |s|
  {
    var r := Trim(s);
    if s == [] {
      assert TrimmedAt(s, 0, r);
    } else if IsWhitespace(s[0]) {
      TrimSpec(s[1..]);
      var j :| TrimmedAt(s[1..], j, r);
      LeadingWhitespace(s, j, r);
    } else if IsWhitespace(s[|s| - 1]) {
      TrimSpec(s[..|s| - 1]);
      var j :| TrimmedAt(s[..|s| - 1], j, r);
      TrailingWhitespace(s, j, r);
    } else {
      assert TrimmedAt(s, 0, r);
    }
  }

  /** A white-space character in front of a trimmed slice's context stays outside the slice. */
  lemma {:induction false} LeadingWhitespace(s: string, j: int, r: string)
    requires s != [] && IsWhitespace(s[0]) && TrimmedAt(s[1..], j, r)
    ensures TrimmedAt(s, j + 1, r)
  {
    var t := s[1..];
    assert r == s[j + 1..j + 1 + |r|];
    assert s[j + 1 + |r|..] == t[j + |r|..];
    forall k | 0 <= k < j + 1 ensures IsWhitespace(s[k]) {
      if k > 0 {
        assert s[k] == t[..j][k - 1];
      }
    }
  }

  /** A white-space character behind a trimmed slice's context stays outside the slice. */
  lemma {:induction false} TrailingWhitespace(s: string, j: int, r: string)
    requires s != [] && IsWhitespace(s[|s| - 1]) && TrimmedAt(s[..|s| - 1], j, r)
    ensures TrimmedAt(s, j, r)
  {
    var t := s[..|s| - 1];
    assert r == s[j..j + |r|];
    assert s[..j] == t[..j];
    forall k | j + |r| <= k < |s| ensures IsWhitespace(s[k]) {
      if k < |s| - 1 {
        assert s[k] == t[j + |r|..][k - j - |r|];
      }
    }
  }

  /**
    `s.trim()` is the only slice of `s` with only white space around it and no white
    space at either end: any slice with these properties is the trimmed string.
   */
  lemma TrimUnique(s: string, i: int, r: string)
    requires TrimmedAt(s, i, r)
    requires r != [] ==> !IsWhitespace(r[0]) && !IsWhitespace(r[|r| - 1])
    ensures r == Trim(s)
  {
    TrimSpec(s);
    var t := Trim(s);
    var j :| TrimmedAt(s, j, t);
    if r == [] {
      TrimEmptyIff(s);
      forall k | 0 <= k < |s| ensures IsWhitespace(s[k]) {
        if k < i {
          assert s[k] == s[..i][k];
        } else {
          assert s[k] == s[i..][k - i];
        }
      }
    } else if t == [] {
      TrimEmptyIff(s);
      assert false;
    } else {
      assert s[i] == r[0] && s[j] == t[0];
      var e, f := i + |r|, j + |t|;
      assert s[e - 1] == r[|r| - 1] && s[f - 1] == t[|t| - 1];
      assert i == j && e == f;
    }
  }

  /** Trimming leaves nothing exactly when the string holds only white space. */
  lemma {:induction false} TrimEmptyIff(s: string)
    ensures Trim(s) == "" <==> AllWhitespace(s)
  {
    TrimSpec(s);
    var r := Trim(s);
    var i :| TrimmedAt(s, i, r);
    if r == "" {
      forall k | 0 <= k < |s| ensures IsWhitespace(s[k]) {
        if k < i {
          assert s[k] == s[..i][k];
        } else {
          assert s[k] == s[i..][k - i];
        }
      }
    } else {
      assert r[0] == s[i];
    }
  }

  /** Trimming twice is trimming once. */
  lemma {:induction false} TrimIdempotent(s: string)
    ensures Trim(Trim(s)) == Trim(s)
  {
    TrimSpec(s);
  }
}
