/** The string operations of the page: JavaScript's `String.prototype.trim`
    and the global replacement of `/\s+/` by one character. Both use the same
    whitespace set, `IsSpace`. */
module Text {

  /** JavaScript's WhiteSpace and LineTerminator characters, the set matched
      by `\s` and removed by `trim()` (the space separators are those of
      Unicode 15). */
  predicate IsSpace(c: char) {
    c == '\t' || c == '\n' || c == '\U{B}' || c == '\U{C}' || c == '\r' ||
    c == ' ' || c == '\U{A0}' || c == '\U{1680}' ||
    ('\U{2000}' <= c <= '\U{200A}') ||
    c == '\U{2028}' || c == '\U{2029}' || c == '\U{202F}' || c == '\U{205F}' ||
    c == '\U{3000}' || c == '\U{FEFF}'
  }

  /** No character of `s` is whitespace. */
  predicate NoSpace(s: string) {
    forall i :: 0 <= i < |s| ==> !IsSpace(s[i])
  }

  /** Every character of `s` is whitespace (true of the empty string). */
  predicate AllSpace(s: string) {
    forall i :: 0 <= i < |s| ==> IsSpace(s[i])
  }

  /** `s` with its leading whitespace removed: the longest suffix of `s` that
      does not start with whitespace. */
  function TrimStart(s: string): (r: string)
    ensures |r| <= |s| && r == s[|s| - |r|..]
    ensures r == [] || !IsSpace(r[0])
    ensures AllSpace(s[..|s| - |r|])
  {
    if s != [] && IsSpace(s[0]) then TrimStart(s[1..]) else s
  }

  /** `s` with its trailing whitespace removed: the longest prefix of `s` that
      does not end with whitespace. */
  function TrimEnd(s: string): (r: string)
    ensures |r| <= |s| && r == s[..|r|]
    ensures r == [] || !IsSpace(r[|r| - 1])
    ensures AllSpace(s[|r|..])
  {
    if s != [] && IsSpace(s[|s| - 1]) then TrimEnd(s[..|s| - 1]) else s
  }

  /** `r` sits at position `k` of `s`, with only whitespace before and after
      it. */
  predicate Between(s: string, k: nat, r: string) {
    k + |r| <= |s| && AllSpace(s[..k]) && s[k..k + |r|] == r && AllSpace(s[k + |r|..])
  }

  /** `s.trim()`: both ends stripped of whitespace. The result is the piece
      of `s` between a whitespace prefix and a whitespace suffix, and it
      neither starts nor ends with whitespace, which fixes it. It is empty
      exactly when `s` is blank, and a string without whitespace is kept. */
  function Trim(s: string): (r: string)
    ensures |r| <= |s|
    ensures exists k :: Between(s, k, r)
    ensures r == [] <==> AllSpace(s)
    ensures r != [] ==> !IsSpace(r[0]) && !IsSpace(r[|r| - 1])
    ensures NoSpace(s) ==> r == s
  {
    var t := TrimStart(s);
    var r := TrimEnd(t);
    TrimmedPiece(s, t, r);
    NothingToTrim(s);
    r
  }

  /** A string without whitespace has nothing to strip at either end. */
  lemma NothingToTrim(s: string)
    ensures NoSpace(s) ==> TrimStart(s) == s && TrimEnd(s) == s
  {
    if NoSpace(s) && s != [] {
      assert !IsSpace(s[0]) && !IsSpace(s[|s| - 1]);
    }
  }

  /** Stripping a whitespace prefix of `s` to get `t`, then a whitespace
      suffix of `t` to get `r`, leaves `r` between a whitespace prefix and a
      whitespace suffix of `s`; when the strips went as far as they could,
      `r` is empty only for a blank `s`. */
  lemma TrimmedPiece(s: string, t: string, r: string)
    requires |t| <= |s| && t == s[|s| - |t|..] && AllSpace(s[..|s| - |t|])
    requires |r| <= |t| && r == t[..|r|] && AllSpace(t[|r|..])
    requires t == [] || !IsSpace(t[0])
    requires r == [] || !IsSpace(r[|r| - 1])
    ensures exists k :: Between(s, k, r)
    ensures r == [] <==> AllSpace(s)
    ensures r != [] ==> !IsSpace(r[0]) && !IsSpace(r[|r| - 1])
  {
    var k := |s| - |t|;
    assert Between(s, k, r) by {
      assert s[k..k + |r|] == t[..|r|];
      assert s[k + |r|..] == t[|r|..];
    }
    if r == [] {
      assert AllSpace(t);
      assert s == s[..k] + t;
    } else {
      assert r[0] == t[0];
    }
  }

  /** The piece `Trim` returns is the only one that sits between whitespace
      and neither starts nor ends with whitespace. */
  lemma TrimIsTheOnlyPiece(s: string, k: nat, x: string)
    requires Between(s, k, x) && x != [] && !IsSpace(x[0]) && !IsSpace(x[|x| - 1])
    ensures Trim(s) == x
  {
    PieceNotBlank(s, k, x);
    var r := Trim(s);
    assert r != [] && !IsSpace(r[0]) && !IsSpace(r[|r| - 1]);
    var j :| Between(s, j, r);
    SamePiece(s, k, x, j, r);
  }

  /** A piece starting with non-whitespace makes its string non-blank. */
  lemma PieceNotBlank(s: string, k: nat, x: string)
    requires Between(s, k, x) && x != [] && !IsSpace(x[0])
    ensures !AllSpace(s)
  {
    assert s[k..k + |x|][0] == s[k];
  }

  /** Two pieces between whitespace that both start and end with
      non-whitespace are the same piece. */
  lemma SamePiece(s: string, k: nat, x: string, j: nat, r: string)
    requires Between(s, k, x) && x != [] && !IsSpace(x[0]) && !IsSpace(x[|x| - 1])
    requires Between(s, j, r) && r != [] && !IsSpace(r[0]) && !IsSpace(r[|r| - 1])
    ensures x == r
  {
    SamePieceStart(s, k, x, j, r);
    SamePieceStart(s, j, r, k, x);
    SamePieceEnd(s, k, x, r);
    SamePieceEnd(s, k, r, x);
  }

  /** A piece that starts with non-whitespace cannot start inside the
      whitespace before another piece. */
  lemma SamePieceStart(s: string, k: nat, x: string, j: nat, r: string)
    requires Between(s, k, x) && x != [] && !IsSpace(x[0])
    requires Between(s, j, r) && r != []
    ensures j <= k
  {
    if k < j {
      assert false;
    }
  }

  /** A piece that ends with non-whitespace cannot end inside the whitespace
      after another piece at the same position. */
  lemma SamePieceEnd(s: string, k: nat, x: string, r: string)
    requires Between(s, k, x) && x != [] && !IsSpace(x[|x| - 1])
    requires Between(s, k, r)
    ensures |x| <= |r|
  {
    if |r| < |x| {
      assert false;
    }
  }

  /** `s.replace(/\s+/g, "_")`: each maximal run of whitespace, scanned from
      the left, becomes one underscore; every other character is kept. */
  function CollapseRuns(s: string): (r: string)
    ensures NoSpace(r)
    ensures |r| <= |s|
    ensures r == [] <==> s == []
    ensures NoSpace(s) ==> r == s
    decreases |s|
  {
    if s == [] then []
    else if IsSpace(s[0]) then
      var rest := TrimStart(s);
      "_" + CollapseRuns(rest)
    else
      [s[0]] + CollapseRuns(s[1..])
  }

  /** A character-at-a-time reading of the same replacement, independent of
      `CollapseRuns`: a whitespace character right after a non-whitespace one
      (or at the start, when `afterSpace` is false) becomes `_`, a whitespace
      character after whitespace is dropped, anything else is copied. */
  function Underscored(s: string, afterSpace: bool): (r: string)
    ensures NoSpace(r)
  {
    if s == [] then []
    else
      (if IsSpace(s[0]) then (if afterSpace then "" else "_") else [s[0]])
      + Underscored(s[1..], IsSpace(s[0]))
  }

  /** After whitespace, further leading whitespace is dropped. */
  lemma {:induction false} UnderscoredSkipsRun(s: string)
    ensures Underscored(s, true) == Underscored(TrimStart(s), true)
  {
    if s != [] && IsSpace(s[0]) {
      UnderscoredSkipsRun(s[1..]);
    }
  }

  /** The run-collapsing replacement and the per-character reading agree on
      every string. */
  lemma {:induction false} CollapseRunsIsUnderscored(s: string)
    ensures CollapseRuns(s) == Underscored(s, false)
    decreases |s|
  {
    if s == [] {
    } else if IsSpace(s[0]) {
      var rest := TrimStart(s);
      assert TrimStart(s[1..]) == rest;
      UnderscoredSkipsRun(s[1..]);
      CollapseRunsIsUnderscored(rest);
      if rest != [] {
        assert !IsSpace(rest[0]);
      }
      calc {
        Underscored(s, false);
        "_" + Underscored(s[1..], true);
        "_" + Underscored(rest, true);
        "_" + Underscored(rest, false);
        "_" + CollapseRuns(rest);
        CollapseRuns(s);
      }
    } else {
      CollapseRunsIsUnderscored(s[1..]);
    }
  }

  /** A leading whitespace character is always trimmed. */
  lemma TrimStartSkipsSpace(c: char, s: string)
    requires IsSpace(c)
    ensures TrimStart([c] + s) == TrimStart(s)
  {
    assert ([c] + s)[1..] == s;
  }

  /** A leading word without whitespace is copied unchanged. */
  lemma {:induction false} CollapseRunsKeepsWord(w: string, rest: string)
    requires NoSpace(w)
    ensures CollapseRuns(w + rest) == w + CollapseRuns(rest)
  {
    if w == [] {
      assert w + rest == rest;
    } else {
      var s := w + rest;
      assert s[0] == w[0] && !IsSpace(s[0]);
      assert s[1..] == w[1..] + rest;
      forall i | 0 <= i < |w| - 1
        ensures !IsSpace(w[1..][i])
      {
        assert w[1..][i] == w[i + 1];
      }
      CollapseRunsKeepsWord(w[1..], rest);
      var c := CollapseRuns(rest);
      calc {
        CollapseRuns(s);
        [s[0]] + CollapseRuns(s[1..]);
        [w[0]] + (w[1..] + c);
        ([w[0]] + w[1..]) + c;
        { assert [w[0]] + w[1..] == w; }
        w + c;
      }
    }
  }

  /** A string that starts and ends with non-whitespace is its own trim. */
  lemma TrimKeepsNonSpaceEnds(s: string)
    requires s != [] && !IsSpace(s[0]) && !IsSpace(s[|s| - 1])
    ensures Trim(s) == s
  {
    assert TrimStart(s) == s;
    assert TrimEnd(s) == s;
  }

  /** Two words around one whitespace character are joined by one `_`. */
  lemma CollapseRunsJoinsWords(a: string, sep: char, b: string)
    requires NoSpace(a) && NoSpace(b) && IsSpace(sep)
    ensures CollapseRuns(a + [sep] + b) == a + "_" + b
  {
    var tail := [sep] + b;
    assert a + [sep] + b == a + tail;
    TrimStartSkipsSpace(sep, b);
    assert TrimStart(b) == b by {
      if b != [] { assert !IsSpace(b[0]); }
    }
    assert CollapseRuns(tail) == "_" + b;
    CollapseRunsKeepsWord(a, tail);
    assert a + ("_" + b) == a + "_" + b;
  }

  /** Trimming twice changes nothing more. */
  lemma TrimIdempotent(s: string)
    ensures Trim(Trim(s)) == Trim(s)
  {
    var t := Trim(s);
    if t != [] {
      assert TrimStart(t) == t;
      assert TrimEnd(t) == t;
    }
  }

  /** Where each part of a three-part concatenation stands. */
  lemma ThreeParts(a: string, b: string, c: string)
    ensures var s := a + b + c;
      && |s| == |a| + |b| + |c|
      && s[..|a|] == a
      && s[|a|..|a| + |b|] == b
      && s[|a| + |b|..] == c
  {
    var s := a + b + c;
    assert s[..|a| + |b|] == a + b;
  }
}
