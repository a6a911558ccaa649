/** The string primitives the overlay relies on: JavaScript's `trim`, an
    upper-case mapping for fallback titles, and `split('\n\n')` with its
    inverse `join`. */
module Text {

  /** The characters `String.prototype.trim` removes: the ECMAScript
      WhiteSpace and LineTerminator code points. */
  predicate IsWhitespace(c: char)
  {
    || c == ' ' || c == '\t' || c == '\n' || c == '\r'
    || c == '\U{000B}' || c == '\U{000C}' || c == '\U{00A0}' || c == '\U{1680}'
    || ('\U{2000}' <= c <= '\U{200A}')
    || c == '\U{2028}' || c == '\U{2029}' || c == '\U{202F}' || c == '\U{205F}'
    || c == '\U{3000}' || c == '\U{FEFF}'
  }

  predicate Blank(s: string)
  {
    forall i :: 0 <= i < |s| ==> IsWhitespace(s[i])
  }

  /** Neither the first nor the last character is whitespace. */
  predicate Trimmed(s: string)
  {
    s == [] || (!IsWhitespace(s[0]) && !IsWhitespace(s[|s| - 1]))
  }

  /** Drops leading whitespace. */
  function TrimStart(s: string): (r: string)
    ensures |r| <= |s|
    ensures r == [] || !IsWhitespace(r[0])
  {
    if s != [] && IsWhitespace(s[0]) then TrimStart(s[1..]) else s
  }

  /** What `TrimStart` keeps is the suffix after a blank prefix. */
  lemma {:induction false} TrimStartIsSuffix(s: string)
    ensures TrimStart(s) == s[|s| - |TrimStart(s)|..]
    ensures Blank(s[..|s| - |TrimStart(s)|])
  {
    if s != [] && IsWhitespace(s[0]) {
      TrimStartIsSuffix(s[1..]);
      var n := |s| - |TrimStart(s)|;
      assert s[1..][n - 1..] == s[n..];
      forall i | 0 <= i < n ensures IsWhitespace(s[..n][i]) {
        if i > 0 {
          assert s[..n][i] == s[1..][..n - 1][i - 1];
        }
      }
    }
  }

  /** Drops trailing whitespace. */
  function TrimEnd(s: string): (r: string)
    ensures |r| <= |s|
    ensures r == [] || !IsWhitespace(r[|r| - 1])
  {
    if s != [] && IsWhitespace(s[|s| - 1]) then TrimEnd(s[..|s| - 1]) else s
  }

  /** What `TrimEnd` keeps is the prefix before a blank suffix. */
  lemma {:induction false} TrimEndIsPrefix(s: string)
    ensures TrimEnd(s) == s[..|TrimEnd(s)|]
    ensures Blank(s[|TrimEnd(s)|..])
  {
    if s != [] && IsWhitespace(s[|s| - 1]) {
      var init := s[..|s| - 1];
      TrimEndIsPrefix(init);
      var n := |TrimEnd(s)|;
      assert init[..n] == s[..n];
      forall i | 0 <= i < |s| - n ensures IsWhitespace(s[n..][i]) {
        if n + i < |s| - 1 {
          assert s[n..][i] == init[n..][i];
        }
      }
    }
  }

  /** Number of whitespace characters `Trim` removes from the front. */
  function TrimOffset(s: string): (n: nat)
    ensures n <= |s|
  {
    |s| - |TrimStart(s)|
  }

  /** `s.trim()`: neither starts nor ends with whitespace; `TrimIsSlice`
      says what is removed. */
  function Trim(s: string): (r: string)
    ensures |r| <= |s|
    ensures Trimmed(r)
  {
    var t := TrimStart(s);
    TrimEndIsPrefix(t);
    TrimEnd(t)
  }

  /** Trimming removes a blank prefix and a blank suffix and keeps the
      slice between them. */
  lemma TrimIsSlice(s: string)
    ensures TrimOffset(s) + |Trim(s)| <= |s|
    ensures Trim(s) == s[TrimOffset(s)..TrimOffset(s) + |Trim(s)|]
    ensures Blank(s[..TrimOffset(s)]) && Blank(s[TrimOffset(s) + |Trim(s)|..])
  {
    var t := TrimStart(s);
    var r := TrimEnd(t);
    var off := |s| - |t|;
    TrimStartIsSuffix(s);
    TrimEndIsPrefix(t);
    assert Trim(s) == r && TrimOffset(s) == off;
    assert s[off..off + |r|] == t[..|r|];
    assert s[off + |r|..] == t[|r|..];
  }

  /** Trimming is the identity exactly on trimmed strings. */
  lemma TrimFixesTrimmed(s: string)
    ensures Trim(s) == s <==> Trimmed(s)
  {
    if Trimmed(s) && s != [] {
      assert TrimStart(s) == s;
      assert TrimEnd(s) == s;
    }
  }

  /** A string trims to nothing exactly when it is all whitespace. */
  lemma {:induction false} TrimEmptyIffBlank(s: string)
    ensures Trim(s) == [] <==> Blank(s)
  {
    var off := TrimOffset(s);
    TrimIsSlice(s);
    if Trim(s) == [] {
      forall i | 0 <= i < |s| ensures IsWhitespace(s[i]) {
        if i < off {
          assert s[..off][i] == s[i];
        } else {
          assert s[off..][i - off] == s[i];
        }
      }
    } else {
      assert s[off] == Trim(s)[0];
    }
  }

  lemma TrimIdempotent(s: string)
    ensures Trim(Trim(s)) == Trim(s)
  {
    TrimFixesTrimmed(Trim(s));
  }

  /** ASCII upper-case mapping of one character. */
  function UpperChar(c: char): (u: char)
  {
    if 'a' <= c <= 'z' then (c as int - 32) as char else c
  }

  /** `s.toUpperCase()`, restricted to ASCII letters. */
  function ToUpper(s: string): (r: string)
    ensures |r| == |s|
    ensures forall i :: 0 <= i < |s| ==> r[i] == UpperChar(s[i])
  {
    if s == [] then [] else [UpperChar(s[0])] + ToUpper(s[1..])
  }

  /** An upper-cased string has no lower-case ASCII letter left. */
  lemma ToUpperHasNoLowerCase(s: string)
    ensures forall i :: 0 <= i < |s| ==> !('a' <= ToUpper(s)[i] <= 'z')
  {
  }

  lemma ToUpperIdempotent(s: string)
    ensures ToUpper(ToUpper(s)) == ToUpper(s)
  {
  }

  /** The paragraph separator of description contents. */
  const Separator: string := "\n\n"

  /** Some position holds two consecutive line feeds. */
  predicate HasSeparator(s: string)
  {
    exists i :: 0 <= i < |s| - 1 && s[i] == '\n' && s[i + 1] == '\n'
  }

  /** `pieces.join('\n\n')`. */
  function Join(pieces: seq<string>): string
  {
    if |pieces| == 0 then ""
    else if |pieces| == 1 then pieces[0]
    else pieces[0] + Separator + Join(pieces[1..])
  }

  /** `s.split('\n\n')`: cuts at each leftmost, non-overlapping occurrence of
      the separator, scanning from the left. Always at least one piece; the
      pieces joined back give `s`, and no piece holds the separator. */
  function Split(s: string): (r: seq<string>)
    ensures |r| >= 1
    ensures r[0] <= s
    ensures Join(r) == s
    ensures forall i :: 0 <= i < |r| ==> !HasSeparator(r[i])
    decreases |s|
  {
    if |s| < 2 then [s]
    else if s[0] == '\n' && s[1] == '\n' then
      var rest := Split(s[2..]);
      assert s == Separator + s[2..];
      [""] + rest
    else
      var rest := Split(s[1..]);
      var head := [s[0]] + rest[0];
      assert !HasSeparator(head) by {
        forall i | 0 <= i < |head| - 1 ensures !(head[i] == '\n' && head[i + 1] == '\n') {
          if i == 0 {
            assert head[1] == rest[0][0] == s[1];
          } else {
            assert rest[0][i - 1] == head[i] && rest[0][i] == head[i + 1];
          }
        }
      }
      JoinConsHead(s[0], rest);
      assert s == [s[0]] + s[1..];
      [head] + rest[1..]
  }

  /** Prepending a character to the first piece prepends it to the join. */
  lemma {:induction false} JoinConsHead(c: char, pieces: seq<string>)
    requires |pieces| >= 1
    ensures Join([[c] + pieces[0]] + pieces[1..]) == [c] + Join(pieces)
  {
    var p := [[c] + pieces[0]] + pieces[1..];
    assert |p| == |pieces| && p[0] == [c] + pieces[0] && p[1..] == pieces[1..];
    if |pieces| > 1 {
      calc {
        Join(p);
        p[0] + Separator + Join(p[1..]);
        ([c] + pieces[0]) + Separator + Join(pieces[1..]);
        [c] + (pieces[0] + Separator + Join(pieces[1..]));
        [c] + Join(pieces);
      }
    }
  }

  /** One step of `split` away from a separator: the first character
      joins the first piece of the rest. */
  lemma SplitStep(s: string)
    requires |s| >= 2 && !(s[0] == '\n' && s[1] == '\n')
    ensures Split(s) == [[s[0]] + Split(s[1..])[0]] + Split(s[1..])[1..]
  {
  }

  /** Dropping the first character keeps a string free of separators. */
  lemma NoSeparatorTail(p: string)
    requires p != [] && !HasSeparator(p)
    ensures !HasSeparator(p[1..])
  {
    var q := p[1..];
    forall i | 0 <= i < |q| - 1 ensures !(q[i] == '\n' && q[i + 1] == '\n') {
      assert p[i + 1] == q[i] && p[i + 2] == q[i + 1];
    }
  }

  /** The first separator of `p + "\n\n" + t` is the one after `p` when `p`
      holds no separator and does not end in a line feed. */
  lemma {:induction false} SplitAfterPiece(p: string, t: string)
    requires !HasSeparator(p)
    requires p == [] || p[|p| - 1] != '\n'
    ensures Split(p + Separator + t) == [p] + Split(t)
    decreases |p|
  {
    var s := p + Separator + t;
    if p == [] {
      assert s[2..] == t;
    } else {
      var q := p[1..];
      NoSeparatorTail(p);
      if q != [] {
        assert q[|q| - 1] == p[|p| - 1];
        assert !(p[0] == '\n' && p[1] == '\n');
      }
      SplitAfterPiece(q, t);
      assert s[1..] == q + Separator + t;
      assert s[0] == p[0] && s[1] == (if q == [] then '\n' else q[0]);
      SplitStep(s);
      assert [p[0]] + q == p;
    }
  }

  /** A piece without a separator splits into itself. */
  lemma {:induction false} SplitOfPiece(p: string)
    requires !HasSeparator(p)
    ensures Split(p) == [p]
    decreases |p|
  {
    if |p| >= 2 {
      var q := p[1..];
      assert !HasSeparator(q) by {
        forall i | 0 <= i < |q| - 1 ensures !(q[i] == '\n' && q[i + 1] == '\n') {
          assert p[i + 1] == q[i] && p[i + 2] == q[i + 1];
        }
      }
      assert !(p[0] == '\n' && p[1] == '\n');
      SplitOfPiece(q);
      assert [p[0]] + q == p;
    }
  }

  /** `split` undoes `join` on pieces that hold no separator and, except the
      last, do not end in a line feed. */
  lemma {:induction false} SplitJoin(pieces: seq<string>)
    requires |pieces| >= 1
    requires forall i :: 0 <= i < |pieces| ==> !HasSeparator(pieces[i])
    requires forall i :: 0 <= i < |pieces| - 1 ==> pieces[i] == [] || pieces[i][|pieces[i]| - 1] != '\n'
    ensures Split(Join(pieces)) == pieces
  {
    if |pieces| == 1 {
      SplitOfPiece(pieces[0]);
    } else {
      SplitJoin(pieces[1..]);
      SplitAfterPiece(pieces[0], Join(pieces[1..]));
      assert [pieces[0]] + pieces[1..] == pieces;
    }
  }

  /** The pieces `split` can return: none holds the separator, and none but
      the last ends in a line feed, since a cut is always made at the leftmost
      separator. */
  predicate WellCut(pieces: seq<string>)
  {
    && |pieces| >= 1
    && (forall i :: 0 <= i < |pieces| ==> !HasSeparator(pieces[i]))
    && (forall i :: 0 <= i < |pieces| - 1 ==> pieces[i] == [] || pieces[i][|pieces[i]| - 1] != '\n')
  }

  /** Cuts are leftmost: no piece but the last ends in a line feed, and an
      empty first piece of several means the string starts with the
      separator. */
  lemma {:induction false} SplitCutsLeftmost(s: string)
    ensures forall i :: 0 <= i < |Split(s)| - 1 ==> Split(s)[i] == [] || Split(s)[i][|Split(s)[i]| - 1] != '\n'
    ensures |Split(s)| > 1 && Split(s)[0] == [] ==> |s| >= 2 && s[0] == '\n' && s[1] == '\n'
    decreases |s|
  {
    var r := Split(s);
    if |s| < 2 {
    } else if s[0] == '\n' && s[1] == '\n' {
      var rest := Split(s[2..]);
      SplitCutsLeftmost(s[2..]);
      assert r == [""] + rest;
      forall i | 1 <= i < |r| - 1 ensures r[i] == [] || r[i][|r[i]| - 1] != '\n' {
        assert r[i] == rest[i - 1];
      }
    } else {
      var rest := Split(s[1..]);
      SplitCutsLeftmost(s[1..]);
      var head := [s[0]] + rest[0];
      assert r == [head] + rest[1..];
      if |r| > 1 {
        if rest[0] == [] {
          assert s[1..][0] == '\n';
          assert head == [s[0]] && s[0] != '\n';
        } else {
          assert head[|head| - 1] == rest[0][|rest[0]| - 1];
        }
      }
      forall i | 1 <= i < |r| - 1 ensures r[i] == [] || r[i][|r[i]| - 1] != '\n' {
        assert r[i] == rest[i];
      }
    }
  }

  /** `split` is characterised by `join`: its result is the one well-cut
      sequence of pieces whose join is the input. */
  lemma SplitCharacterised(s: string, pieces: seq<string>)
    ensures Split(s) == pieces <==> WellCut(pieces) && Join(pieces) == s
  {
    SplitCutsLeftmost(s);
    if WellCut(pieces) && Join(pieces) == s {
      SplitJoin(pieces);
    }
  }

  /** Trimming keeps a string free of separators: the result is a slice. */
  lemma TrimKeepsNoSeparator(s: string)
    requires !HasSeparator(s)
    ensures !HasSeparator(Trim(s))
  {
    var r := Trim(s);
    var off := TrimOffset(s);
    TrimIsSlice(s);
    forall i | 0 <= i < |r| - 1 ensures !(r[i] == '\n' && r[i + 1] == '\n') {
      assert s[off + i] == r[i] && s[off + i + 1] == r[i + 1];
    }
  }

  /** The trimmed, non-blank segments, in order: the paragraph filter of
      `split(...).map(p => p.trim() ? ... : '')`. */
  function KeepNonBlank(segments: seq<string>): (r: seq<string>)
    ensures |r| <= |segments|
    ensures forall i :: 0 <= i < |r| ==> r[i] != [] && Trimmed(r[i])
  {
    if segments == [] then []
    else
      var t := Trim(segments[0]);
      (if t != [] then [t] else []) + KeepNonBlank(segments[1..])
  }

  /** Filtering is segment-wise: it distributes over concatenation. */
  lemma {:induction false} KeepNonBlankAppend(a: seq<string>, b: seq<string>)
    ensures KeepNonBlank(a + b) == KeepNonBlank(a) + KeepNonBlank(b)
  {
    if a == [] {
      assert a + b == b;
    } else {
      var t := Trim(a[0]);
      var h := if t != [] then [t] else [];
      var ab := a + b;
      assert ab[0] == a[0] && ab[1..] == a[1..] + b;
      assert KeepNonBlank(ab) == h + KeepNonBlank(a[1..] + b);
      assert KeepNonBlank(a) == h + KeepNonBlank(a[1..]);
      KeepNonBlankAppend(a[1..], b);
    }
  }

  /** Indices of the segments that survive the filter. */
  function NonBlankIndices(segments: seq<string>): set<nat>
  {
    set i: nat | i < |segments| && Trim(segments[i]) != []
  }

  /** As many paragraphs are kept as there are segments whose trim is
      non-empty. */
  lemma {:induction false} KeepNonBlankCount(segments: seq<string>)
    ensures |KeepNonBlank(segments)| == |NonBlankIndices(segments)|
    decreases |segments|
  {
    if segments == [] {
      assert NonBlankIndices(segments) == {};
    } else {
      var n := |segments| - 1;
      var init, last := segments[..n], segments[n];
      assert segments == init + [last];
      KeepNonBlankCount(init);
      KeepNonBlankAppend(init, [last]);
      assert |KeepNonBlank([last])| == if Trim(last) != [] then 1 else 0 by {
        assert [last][1..] == [];
      }
      NonBlankIndicesSnoc(init, last);
    }
  }

  lemma NonBlankIndicesSnoc(init: seq<string>, last: string)
    ensures |NonBlankIndices(init + [last])|
         == |NonBlankIndices(init)| + (if Trim(last) != [] then 1 else 0)
  {
    var n := |init|;
    var s := init + [last];
    var tail: set<nat> := if Trim(last) != [] then {n} else {};
    forall i: nat ensures i in NonBlankIndices(s) <==> i in NonBlankIndices(init) + tail {
      if i < n {
        assert s[i] == init[i];
      } else if i == n {
        assert s[n] == last;
      }
    }
    assert NonBlankIndices(s) == NonBlankIndices(init) + tail;
    assert NonBlankIndices(init) !! tail;
  }

  /** Filtering segments that hold no separator yields paragraphs that hold
      none either. */
  lemma {:induction false} KeepNonBlankNoSeparator(segments: seq<string>)
    requires forall i :: 0 <= i < |segments| ==> !HasSeparator(segments[i])
    ensures forall i :: 0 <= i < |KeepNonBlank(segments)| ==> !HasSeparator(KeepNonBlank(segments)[i])
  {
    if segments != [] {
      TrimKeepsNoSeparator(segments[0]);
      KeepNonBlankNoSeparator(segments[1..]);
    }
  }

  /** Non-empty, trimmed segments pass the filter unchanged. */
  lemma {:induction false} KeepNonBlankKeepsParagraphs(segments: seq<string>)
    requires forall i :: 0 <= i < |segments| ==> segments[i] != [] && Trimmed(segments[i])
    ensures KeepNonBlank(segments) == segments
  {
    if segments != [] {
      TrimFixesTrimmed(segments[0]);
      KeepNonBlankKeepsParagraphs(segments[1..]);
      assert [segments[0]] + segments[1..] == segments;
    }
  }
}
