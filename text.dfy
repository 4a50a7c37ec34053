/** The string operations the code uses: `toLowerCase`, `includes`, `trim` and
    `split` on the sentence-terminator class `[.!?。！？]`. */
module Text {
  import opened Seqs

  // ---------------------------------------------------------------------------
  // Case folding
  // ---------------------------------------------------------------------------

  /** Lower-cases one character; only the ASCII letters A-Z are folded. */
  function LowerChar(c: char): char
  {
    if 'A' <= c <= 'Z' then (c as int - 'A' as int + 'a' as int) as char else c
  }

  /** `s.toLowerCase()`, restricted to the ASCII fold. */
  function Lower(s: string): string
  {
    seq(|s|, i requires 0 <= i < |s| => LowerChar(s[i]))
  }

  /** Folding twice is folding once, so comparing lower-cased strings is symmetric
      in which side was already lower-cased. */
  lemma LowerIdempotent(s: string)
    ensures Lower(Lower(s)) == Lower(s)
  {
  }

  /** Folding never produces an upper-case ASCII letter. */
  lemma LowerHasNoUpper(s: string)
    ensures forall i :: 0 <= i < |Lower(s)| ==> !('A' <= Lower(s)[i] <= 'Z')
  {
  }

  // ---------------------------------------------------------------------------
  // Substring search
  // ---------------------------------------------------------------------------

  /** `pat` occurs in `s` starting at index `i`. */
  predicate OccursAt(s: string, pat: string, i: nat)
  {
    i + |pat| <= |s| && s[i..i + |pat|] == pat
  }

  /** `s.includes(sub)`. */
  predicate Contains(s: string, sub: string)
  {
    sub <= s || (s != [] && Contains(s[1..], sub))
  }

  /** `includes` holds exactly when the substring occurs at some index. */
  lemma {:induction false} ContainsIff(s: string, sub: string)
    ensures Contains(s, sub) <==> exists i: nat :: OccursAt(s, sub, i)
  {
    if sub <= s {
      assert OccursAt(s, sub, 0);
    } else if s == [] {
      assert |sub| > 0;
    } else {
      ContainsIff(s[1..], sub);
      forall i: nat | 0 < i ensures OccursAt(s, sub, i) <==> OccursAt(s[1..], sub, i - 1) {
        if i + |sub| <= |s| {
          var t := s[1..];
          var x, y := t[i - 1..i - 1 + |sub|], s[i..i + |sub|];
          assert |x| == |sub| == |y|;
          assert forall j :: 0 <= j < |sub| ==> x[j] == y[j];
          assert x == y;
        }
      }
      assert !OccursAt(s, sub, 0);
      if Contains(s[1..], sub) {
        var i: nat :| OccursAt(s[1..], sub, i);
        assert OccursAt(s, sub, i + 1);
      }
    }
  }

  /** Every string contains the empty string. */
  lemma ContainsEmpty(s: string)
    ensures Contains(s, "")
  {
  }

  // ---------------------------------------------------------------------------
  // Trimming
  // ---------------------------------------------------------------------------

  /** The characters `String.prototype.trim` removes: ECMAScript WhiteSpace (tab,
      vertical tab, form feed, space, no-break space, byte-order mark and the
      Unicode space separators) and LineTerminator (LF, CR, LS, PS). */
  predicate IsJsSpace(c: char)
  {
    || c == '\t' || c == '\n' || c == '\U{000B}' || c == '\U{000C}' || c == '\r'
    || c == ' ' || c == '\U{00A0}' || c == '\U{1680}'
    || ('\U{2000}' <= c <= '\U{200A}')
    || c == '\U{2028}' || c == '\U{2029}' || c == '\U{202F}' || c == '\U{205F}'
    || c == '\U{3000}' || c == '\U{FEFF}'
  }

  /** Removes leading white space. */
  function TrimStart(s: string): string
  {
    if s == [] || !IsJsSpace(s[0]) then s else TrimStart(s[1..])
  }

  /** Removes trailing white space. */
  function TrimEnd(s: string): string
  {
    if s == [] || !IsJsSpace(s[|s| - 1]) then s else TrimEnd(s[..|s| - 1])
  }

  /** `TrimStart` gives the suffix of `s` that starts at its first non-space
      character. */
  lemma {:induction false} TrimStartFacts(s: string)
    ensures var r := TrimStart(s);
      && |r| <= |s| && r == s[|s| - |r|..]
      && (forall i :: 0 <= i < |s| - |r| ==> IsJsSpace(s[i]))
      && (r == [] || !IsJsSpace(r[0]))
  {
    if s != [] && IsJsSpace(s[0]) {
      TrimStartFacts(s[1..]);
      var r := TrimStart(s);
      assert s[1..][|s| - 1 - |r|..] == s[|s| - |r|..];
      forall i | 0 < i < |s| - |r| ensures IsJsSpace(s[i]) {
        assert s[i] == s[1..][i - 1];
      }
    }
  }

  /** `TrimEnd` gives the prefix of `s` that ends at its last non-space character. */
  lemma {:induction false} TrimEndFacts(s: string)
    ensures var r := TrimEnd(s);
      && |r| <= |s| && r == s[..|r|]
      && (forall i :: |r| <= i < |s| ==> IsJsSpace(s[i]))
      && (r == [] || !IsJsSpace(r[|r| - 1]))
  {
    if s != [] && IsJsSpace(s[|s| - 1]) {
      TrimEndFacts(s[..|s| - 1]);
      var r := TrimEnd(s);
      assert s[..|s| - 1][..|r|] == s[..|r|];
      forall i | |r| <= i < |s| - 1 ensures IsJsSpace(s[i]) {
        assert s[i] == s[..|s| - 1][i];
      }
    }
  }

  /** `s.trim()`. */
  function Trim(s: string): string
  {
    TrimEnd(TrimStart(s))
  }

  /** `trim` cuts `s` to an infix `s[lo..hi]` with only white space outside it and
      no white space at either end of it. */
  lemma TrimIsInfix(s: string) returns (lo: nat, hi: nat)
    ensures lo <= hi <= |s| && Trim(s) == s[lo..hi]
    ensures forall i :: 0 <= i < lo ==> IsJsSpace(s[i])
    ensures forall i :: hi <= i < |s| ==> IsJsSpace(s[i])
    ensures Trim(s) == [] || (!IsJsSpace(Trim(s)[0]) && !IsJsSpace(Trim(s)[|Trim(s)| - 1]))
  {
    var t := TrimStart(s);
    var u := TrimEnd(t);
    TrimStartFacts(s);
    TrimEndFacts(t);
    lo := |s| - |t|;
    hi := lo + |u|;
    assert u == s[lo..hi] by {
      assert t == s[lo..];
      assert u == t[..|u|];
    }
    TrimEndTail(t, u, s, lo);
    if u != [] {
      assert u[0] == t[0];
    }
  }

  lemma TrimEndTail(t: string, u: string, s: string, lo: nat)
    requires lo <= |s| && t == s[lo..] && u == TrimEnd(t)
    ensures forall i :: lo + |u| <= i < |s| ==> IsJsSpace(s[i])
  {
    TrimEndFacts(t);
    forall i | lo + |u| <= i < |s| ensures IsJsSpace(s[i]) {
      assert s[i] == t[i - lo];
    }
  }

  /** `s.trim()` is falsy (empty) exactly when `s` is all white space. */
  lemma TrimEmptyIff(s: string)
    ensures Trim(s) == [] <==> forall i :: 0 <= i < |s| ==> IsJsSpace(s[i])
  {
    var lo, hi := TrimIsInfix(s);
    if Trim(s) != [] {
      assert s[lo] == Trim(s)[0];
      assert !IsJsSpace(s[lo]);
    }
  }

  // ---------------------------------------------------------------------------
  // Sentence splitting
  // ---------------------------------------------------------------------------

  /** The characters of the regular-expression class `[.!?。！？]`. */
  predicate IsTerminator(c: char)
  {
    c == '.' || c == '!' || c == '?' || c == '。' || c == '！' || c == '？'
  }

  /** `s.split(/[.!?。！？]/)`: the pieces between terminators, empty pieces
      included; the empty string splits into one empty piece. */
  function Split(s: string): (r: seq<string>)
    ensures |r| >= 1
    ensures forall k, i :: 0 <= k < |r| && 0 <= i < |r[k]| ==> !IsTerminator(r[k][i])
  {
    if s == [] then [""]
    else
      var rest := Split(s[1..]);
      if IsTerminator(s[0]) then [""] + rest
      else [[s[0]] + rest[0]] + rest[1..]
  }

  /** Puts the pieces back together with the separators between them. */
  function Join(pieces: seq<string>, seps: string): string
    requires |pieces| == |seps| + 1
  {
    if seps == [] then pieces[0]
    else pieces[0] + [seps[0]] + Join(pieces[1..], seps[1..])
  }

  lemma JoinConsHead(c: char, p: string, ps: seq<string>, seps: string)
    requires |ps| == |seps|
    ensures Join([[c] + p] + ps, seps) == [c] + Join([p] + ps, seps)
  {
    var xs, ys := [[c] + p] + ps, [p] + ps;
    if seps != [] {
      assert xs[0] == [c] + p && ys[0] == p;
      assert xs[1..] == ps == ys[1..];
      var tail := [seps[0]] + Join(ps, seps[1..]);
      assert Join(xs, seps) == ([c] + p) + tail;
      assert Join(ys, seps) == p + tail;
    }
  }

  /** Splitting loses nothing: joining the pieces with the terminators of `s`, in
      their order, gives `s` back. With the contract of `Split` (no piece holds a
      terminator) this fixes the pieces uniquely. */
  lemma {:induction false} SplitRoundTrip(s: string)
    ensures |Split(s)| == |Filter(s, IsTerminator)| + 1
    ensures Join(Split(s), Filter(s, IsTerminator)) == s
  {
    if s != [] {
      SplitRoundTrip(s[1..]);
      var rest := Split(s[1..]);
      var seps := Filter(s[1..], IsTerminator);
      if IsTerminator(s[0]) {
        assert Filter(s, IsTerminator) == [s[0]] + seps;
        assert Split(s) == [""] + rest;
        assert Join([""] + rest, [s[0]] + seps) == "" + [s[0]] + Join(rest, seps);
        assert s == [s[0]] + s[1..];
      } else {
        assert Filter(s, IsTerminator) == seps;
        assert rest == [rest[0]] + rest[1..];
        JoinConsHead(s[0], rest[0], rest[1..], seps);
        assert s == [s[0]] + s[1..];
      }
    }
  }

  /** A piece that `s.trim()` leaves non-empty (the `filter(s => s.trim())`). */
  predicate NonBlank(s: string)
  {
    Trim(s) != ""
  }

  /** `text.split(/[.!?。！？]/).filter(s => s.trim())`: the sentence-like segments,
      untrimmed, with blank segments dropped. */
  function Sentences(text: string): (r: seq<string>)
    ensures forall k :: 0 <= k < |r| ==> NonBlank(r[k])
  {
    var r := Filter(Split(text), NonBlank);
    forall k | 0 <= k < |r| ensures NonBlank(r[k]) { assert r[k] in r; }
    r
  }
}
