/**
 * The functions of Go's `strings` package that the two command parsers use,
 * over strings of code points (Go decodes UTF-8 into runes for the same
 * functions, so the splitting points agree).
 */
module GoStrings {

  /** unicode.IsSpace: the Latin-1 white space and the other White_Space code points. */
  predicate IsSpace(c: char) {
    || c == '\t' || c == '\n' || c == '\U{0B}' || c == '\U{0C}' || c == '\r' || c == ' '
    || c == '\U{85}' || c == '\U{A0}' || c == '\U{1680}'
    || ('\U{2000}' <= c <= '\U{200A}')
    || c == '\U{2028}' || c == '\U{2029}' || c == '\U{202F}' || c == '\U{205F}' || c == '\U{3000}'
  }

  /** No character of s is white space. */
  predicate NoSpace(s: string) {
    forall i :: 0 <= i < |s| ==> !IsSpace(s[i])
  }

  /** A field as strings.Fields returns it: non-empty and free of white space. */
  predicate IsWord(w: string) {
    w != [] && NoSpace(w)
  }

  predicate AllWords(ws: seq<string>) {
    forall i :: 0 <= i < |ws| ==> IsWord(ws[i])
  }

  /** strings.HasPrefix: s is prefix followed by the rest of s. */
  function HasPrefix(s: string, prefix: string): (b: bool)
    ensures b <==> |prefix| <= |s| && s == prefix + s[|prefix|..]
  {
    if |prefix| <= |s| && s[..|prefix|] == prefix then
      assert s == s[..|prefix|] + s[|prefix|..];
      true
    else false
  }

  /** strings.TrimPrefix: drops one leading occurrence of prefix, if there is one. */
  function TrimPrefix(s: string, prefix: string): (r: string)
    ensures HasPrefix(s, prefix) ==> prefix + r == s
    ensures !HasPrefix(s, prefix) ==> r == s
  {
    if HasPrefix(s, prefix) then s[|prefix|..] else s
  }

  /** The length of the run of non-space characters at the front of s. */
  function WordLen(s: string): (n: nat)
    ensures n <= |s|
    ensures NoSpace(s[..n])
    ensures n < |s| ==> IsSpace(s[n])
  {
    if s == [] || IsSpace(s[0]) then 0
    else
      var m := WordLen(s[1..]);
      assert s[..1 + m] == [s[0]] + s[1..][..m];
      1 + m
  }

  /** strings.Fields: the maximal runs of non-space characters of s, in order. */
  function Fields(s: string): (r: seq<string>)
    ensures AllWords(r)
    decreases |s|
  {
    if s == [] then []
    else if IsSpace(s[0]) then Fields(s[1..])
    else
      var n := WordLen(s);
      [s[..n]] + Fields(s[n..])
  }

  /** strings.Join: the elements in order with one separator between neighbours. */
  function Join(ws: seq<string>, sep: string): (r: string)
    ensures ws == [] ==> r == []
    ensures |ws| == 1 ==> r == ws[0]
    ensures ws != [] ==> |ws[0]| <= |r|
  {
    if ws == [] then []
    else if |ws| == 1 then ws[0]
    else ws[0] + sep + Join(ws[1..], sep)
  }

  /** strings.TrimLeftFunc(s, unicode.IsSpace) */
  function TrimLeft(s: string): (r: string)
    ensures |r| <= |s| && r == s[|s| - |r|..]
    ensures r == [] || !IsSpace(r[0])
    ensures forall i :: 0 <= i < |s| - |r| ==> IsSpace(s[i])
  {
    if s != [] && IsSpace(s[0]) then TrimLeft(s[1..]) else s
  }

  /** strings.TrimRightFunc(s, unicode.IsSpace) */
  function TrimRight(s: string): (r: string)
    ensures |r| <= |s| && r == s[..|r|]
    ensures r == [] || !IsSpace(r[|r| - 1])
    ensures forall i :: |r| <= i < |s| ==> IsSpace(s[i])
  {
    if s != [] && IsSpace(s[|s| - 1]) then TrimRight(s[..|s| - 1]) else s
  }

  /** r is the slice of s at offset i, and everything around it is white space. */
  predicate Trimmed(s: string, i: nat, r: string) {
    && i + |r| <= |s| && r == s[i..i + |r|]
    && (forall k :: 0 <= k < i ==> IsSpace(s[k]))
    && (forall k :: i + |r| <= k < |s| ==> IsSpace(s[k]))
  }

  /**
   * strings.TrimSpace: the slice of s left after cutting white space from
   * both ends; neither end of the result is white space, and a string
   * already like that is unchanged.
   */
  function TrimSpace(s: string): (r: string)
    ensures r == [] || (!IsSpace(r[0]) && !IsSpace(r[|r| - 1]))
    ensures |r| <= |s|
    ensures s == [] || (!IsSpace(s[0]) && !IsSpace(s[|s| - 1])) ==> r == s
    // only white space is cut, and only at the two ends
    ensures exists i :: Trimmed(s, i, r)
  {
    TrimBothEnds(s, TrimLeft(s), TrimRight(TrimLeft(s)));
    TrimRight(TrimLeft(s))
  }

  /** Only the surrounding white space goes; the white space inside stays. */
  lemma TrimSpaceExample()
    ensures TrimSpace(" a b ") == "a b"
  {
    var s, l, r := " a b ", "a b ", "a b";
    assert !IsSpace(l[0]) && !IsSpace(r[|r| - 1]);
    assert TrimLeft(l) == l;
    assert TrimLeft(s) == l by { assert s[1..] == l; }
    assert TrimRight(r) == r;
    assert TrimRight(l) == r by { assert l[..|l| - 1] == r; }
  }

  /** A front slice r of a back slice l of s, each cutting only white space, is a trimmed middle of s. */
  lemma TrimBothEnds(s: string, l: string, r: string)
    requires |l| <= |s| && l == s[|s| - |l|..] && forall k :: 0 <= k < |s| - |l| ==> IsSpace(s[k])
    requires |r| <= |l| && r == l[..|r|] && forall k :: |r| <= k < |l| ==> IsSpace(l[k])
    ensures Trimmed(s, |s| - |l|, r)
  {
    var i := |s| - |l|;
    forall k | i + |r| <= k < |s|
      ensures IsSpace(s[k])
    {
      assert s[k] == l[k - i];
    }
  }

  /** The characters of s that are not white space, in order. */
  function NonSpace(s: string): string {
    if s == [] then []
    else if IsSpace(s[0]) then NonSpace(s[1..])
    else [s[0]] + NonSpace(s[1..])
  }

  /** The concatenation of a sequence of strings. */
  function Concat(ws: seq<string>): string {
    if ws == [] then [] else ws[0] + Concat(ws[1..])
  }

  // ---------------------------------------------------------------------
  // Lemmas about Fields, Join and TrimSpace

  /** A run of non-space characters followed by a space (or the end) is a word of that length. */
  lemma {:induction false} WordLenOfRun(w: string, rest: string)
    requires NoSpace(w)
    requires rest == [] || IsSpace(rest[0])
    ensures WordLen(w + rest) == |w|
  {
    if w != [] {
      assert (w + rest)[1..] == w[1..] + rest;
      WordLenOfRun(w[1..], rest);
    }
  }

  /** Splitting a word followed by a space (or the end). */
  lemma FieldsOfWordThen(w: string, rest: string)
    requires IsWord(w)
    requires rest == [] || IsSpace(rest[0])
    ensures Fields(w + rest) == [w] + Fields(rest)
  {
    WordLenOfRun(w, rest);
    var s := w + rest;
    assert s[..|w|] == w;
    assert s[|w|..] == rest;
  }

  /** Every field of s is kept, in order: joining the fields gives the non-space characters of s. */
  lemma {:induction false} FieldsKeepContent(s: string)
    ensures Concat(Fields(s)) == NonSpace(s)
    decreases |s|
  {
    if s != [] {
      if IsSpace(s[0]) {
        FieldsKeepContent(s[1..]);
      } else {
        var n := WordLen(s);
        FieldsKeepContent(s[n..]);
        NonSpaceOfRun(s[..n], s[n..]);
        assert s == s[..n] + s[n..];
      }
    }
  }

  lemma {:induction false} NonSpaceOfRun(w: string, rest: string)
    requires NoSpace(w)
    ensures NonSpace(w + rest) == w + NonSpace(rest)
  {
    if w != [] {
      var s := w + rest;
      assert s[0] == w[0] && !IsSpace(w[0]);
      assert s[1..] == w[1..] + rest;
      assert NonSpace(s) == [w[0]] + NonSpace(s[1..]);
      NonSpaceOfRun(w[1..], rest);
      assert w == [w[0]] + w[1..];
    } else {
      assert w + rest == rest;
    }
  }

  /** A string of white space alone has no fields. */
  lemma {:induction false} FieldsOfSpaces(sp: string)
    requires forall i :: 0 <= i < |sp| ==> IsSpace(sp[i])
    ensures Fields(sp) == []
  {
    if sp != [] {
      FieldsOfSpaces(sp[1..]);
    }
  }

  /** Leading white space does not change the fields. */
  lemma {:induction false} FieldsSkipsLeadingSpace(sp: string, y: string)
    requires forall i :: 0 <= i < |sp| ==> IsSpace(sp[i])
    ensures Fields(sp + y) == Fields(y)
  {
    if sp == [] {
      assert sp + y == y;
    } else {
      assert (sp + y)[0] == sp[0];
      assert (sp + y)[1..] == sp[1..] + y;
      FieldsSkipsLeadingSpace(sp[1..], y);
    }
  }

  /**
   * Where strings.Fields splits: a non-empty run of white space separates
   * the fields before it from those after it, however long the run is.
   */
  lemma {:induction false} FieldsSplitAtSpace(x: string, sp: string, y: string)
    requires sp != [] && forall i :: 0 <= i < |sp| ==> IsSpace(sp[i])
    ensures Fields(x + sp + y) == Fields(x) + Fields(y)
    decreases |x|
  {
    if x == [] {
      assert x + sp + y == sp + y;
      FieldsSkipsLeadingSpace(sp, y);
    } else if IsSpace(x[0]) {
      assert (x + sp + y)[1..] == x[1..] + sp + y;
      FieldsSplitAtSpace(x[1..], sp, y);
    } else {
      var n := WordLen(x);
      var rest := x[n..] + sp + y;
      assert x == x[..n] + x[n..];
      assert x + sp + y == x[..n] + rest;
      assert rest[0] == if n < |x| then x[n] else sp[0];
      FieldsSplitAtSpace(x[n..], sp, y);
      FieldsSplitAfterWord(x[..n], x[n..], rest, x, x + sp + y, y);
    }
  }

  /** The step for a word w at the front of x and of s: it is the first field of both. */
  lemma FieldsSplitAfterWord(w: string, r: string, rest: string, x: string, s: string, y: string)
    requires IsWord(w) && (r == [] || IsSpace(r[0])) && (rest == [] || IsSpace(rest[0]))
    requires x == w + r && s == w + rest
    requires Fields(rest) == Fields(r) + Fields(y)
    ensures Fields(s) == Fields(x) + Fields(y)
  {
    FieldsOfWordThen(w, rest);
    FieldsOfWordThen(w, r);
    ConsAppend(w, Fields(r), Fields(y));
  }

  lemma ConsAppend<T>(w: T, a: seq<T>, b: seq<T>)
    ensures [w] + (a + b) == ([w] + a) + b
  {
    assert ([w] + a) + b == [w] + (a + b);
  }

  /** Trailing white space does not change the fields. */
  lemma {:induction false} FieldsIgnoresTrailingSpace(x: string, sp: string)
    requires forall i :: 0 <= i < |sp| ==> IsSpace(sp[i])
    ensures Fields(x + sp) == Fields(x)
    decreases |x|
  {
    if x == [] {
      assert x + sp == sp;
      FieldsOfSpaces(sp);
    } else if IsSpace(x[0]) {
      assert (x + sp)[1..] == x[1..] + sp;
      FieldsIgnoresTrailingSpace(x[1..], sp);
    } else {
      var n := WordLen(x);
      var tail := x[n..] + sp;
      assert x + sp == x[..n] + tail;
      WordLenOfRun(x[..n], tail);
      assert (x + sp)[..n] == x[..n];
      assert (x + sp)[n..] == tail;
      FieldsIgnoresTrailingSpace(x[n..], sp);
    }
  }

  /** Leading white space does not change the fields. */
  lemma {:induction false} FieldsOfTrimLeft(s: string)
    ensures Fields(TrimLeft(s)) == Fields(s)
  {
    if s != [] && IsSpace(s[0]) {
      FieldsOfTrimLeft(s[1..]);
    }
  }

  /** Trailing white space removed by TrimRight does not change the fields. */
  lemma FieldsOfTrimRight(l: string)
    ensures Fields(TrimRight(l)) == Fields(l)
  {
    var r := TrimRight(l);
    var sp := l[|r|..];
    assert l == r + sp;
    forall i | 0 <= i < |sp|
      ensures IsSpace(sp[i])
    {
      assert sp[i] == l[|r| + i];
    }
    FieldsIgnoresTrailingSpace(r, sp);
  }

  /** strings.TrimSpace does not change what strings.Fields returns. */
  lemma FieldsOfTrimSpace(s: string)
    ensures Fields(TrimSpace(s)) == Fields(s)
  {
    var l := TrimLeft(s);
    FieldsOfTrimLeft(s);
    FieldsOfTrimRight(l);
  }

  /** Round trip: splitting words joined by single spaces gives the words back. */
  lemma {:induction false} FieldsOfJoin(ws: seq<string>)
    requires AllWords(ws)
    ensures Fields(Join(ws, " ")) == ws
  {
    if |ws| == 1 {
      assert ws[0] + [] == ws[0];
      FieldsOfWordThen(ws[0], []);
    } else if |ws| > 1 {
      var rest := " " + Join(ws[1..], " ");
      assert Join(ws, " ") == ws[0] + rest;
      FieldsOfWordThen(ws[0], rest);
      assert rest[1..] == Join(ws[1..], " ");
      FieldsOfJoin(ws[1..]);
      assert Fields(rest) == ws[1..];
      assert ws == [ws[0]] + ws[1..];
    }
  }

  /** The joined length is the elements' total plus one separator between each pair of neighbours. */
  lemma {:induction false} JoinLength(ws: seq<string>, sep: string)
    requires ws != []
    ensures |Join(ws, sep)| == |Concat(ws)| + (|ws| - 1) * |sep|
  {
    if |ws| > 1 {
      JoinLength(ws[1..], sep);
    }
  }

  /** Words joined by single spaces start with the first word's first character and end with the last word's last one. */
  lemma {:induction false} JoinEnds(ws: seq<string>)
    requires AllWords(ws) && ws != []
    ensures var j := Join(ws, " ");
      j != [] && j[0] == ws[0][0] && j[|j| - 1] == ws[|ws| - 1][|ws[|ws| - 1]| - 1]
  {
    if |ws| > 1 {
      JoinEnds(ws[1..]);
    }
  }
}
