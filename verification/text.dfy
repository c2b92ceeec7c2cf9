/** The two ways the reader cuts a string into pieces: Python's `str.split()`
    with no argument (runs of whitespace separate fields, leading and trailing
    whitespace is dropped) and `str.split("\n")` (every newline separates two
    pieces, empty pieces kept). */
module Text {

  /** The characters Python's `str.isspace` accepts, which are the ones
      `str.split()` treats as separators. */
  predicate IsSpace(c: char) {
    var n := c as int;
    || (9 <= n <= 13)          // \t \n \v \f \r
    || (28 <= n <= 32)         // file/group/record/unit separators, space
    || n == 0x85 || n == 0xA0 || n == 0x1680
    || (0x2000 <= n <= 0x200A)
    || n == 0x2028 || n == 0x2029 || n == 0x202F || n == 0x205F || n == 0x3000
  }

  predicate NoSpace(w: string) {
    forall i :: 0 <= i < |w| ==> !IsSpace(w[i])
  }

  /** `xs` joined with `sep` between consecutive elements (Python's `sep.join`). */
  function Join(xs: seq<string>, sep: string): string
  {
    if |xs| == 0 then []
    else if |xs| == 1 then xs[0]
    else xs[0] + sep + Join(xs[1..], sep)
  }

  /** The longest prefix of `s` without whitespace. */
  function Word(s: string): (w: string)
    ensures |w| <= |s| && w == s[..|w|]
    ensures NoSpace(w)
    ensures |w| < |s| ==> IsSpace(s[|w|])
  {
    if s == [] || IsSpace(s[0]) then []
    else [s[0]] + Word(s[1..])
  }

  /** Python's `s.split()`: the maximal whitespace-free runs of `s`, in order. */
  function Fields(s: string): (r: seq<string>)
    ensures forall i :: 0 <= i < |r| ==> r[i] != [] && NoSpace(r[i])
    decreases |s|
  {
    if s == [] then []
    else if IsSpace(s[0]) then Fields(s[1..])
    else
      var w := Word(s);
      [w] + Fields(s[|w|..])
  }

  lemma {:induction false} WordOfWord(w: string, rest: string)
    requires NoSpace(w)
    requires rest == [] || IsSpace(rest[0])
    ensures Word(w + rest) == w
  {
    if w == [] {
      assert w + rest == rest;
    } else {
      assert (w + rest)[0] == w[0];
      assert (w + rest)[1..] == w[1..] + rest;
      WordOfWord(w[1..], rest);
    }
  }

  predicate AllSpace(w: string) {
    forall i :: 0 <= i < |w| ==> IsSpace(w[i])
  }

  /** Fields `xs` laid out between whitespace runs `ws`:
      `ws[0] + xs[0] + ws[1] + ... + xs[n-1] + ws[n]`. Every string has this
      shape for some runs and fields (`LayoutOf`). */
  function Interleave(ws: seq<string>, xs: seq<string>): string
    requires |ws| == |xs| + 1
    decreases |xs|
  {
    if xs == [] then ws[0]
    else ws[0] + xs[0] + Interleave(ws[1..], xs[1..])
  }

  lemma InterleaveStart(ws: seq<string>, xs: seq<string>)
    requires |ws| == |xs| + 1
    ensures |ws[0]| <= |Interleave(ws, xs)| && Interleave(ws, xs)[..|ws[0]|] == ws[0]
  {
  }

  /** Leading whitespace contributes no field. */
  lemma {:induction false} FieldsSkipSpace(w: string, t: string)
    requires AllSpace(w)
    ensures Fields(w + t) == Fields(t)
    decreases |w|
  {
    if w == [] {
      assert w + t == t;
    } else {
      assert (w + t)[0] == w[0];
      assert (w + t)[1..] == w[1..] + t;
      FieldsSkipSpace(w[1..], t);
    }
  }

  /** A whitespace-free run followed by whitespace or the end is one field. */
  lemma FieldsTakeWord(x: string, t: string)
    requires x != [] && NoSpace(x)
    requires t == [] || IsSpace(t[0])
    ensures Fields(x + t) == [x] + Fields(t)
  {
    WordOfWord(x, t);
    assert (x + t)[0] == x[0];
    assert (x + t)[|x|..] == t;
  }

  /** `split()` gives back the fields of any layout: any whitespace runs
      between them (at least one character wide) and before and after them
      (possibly empty). */
  lemma {:induction false} FieldsOfInterleave(ws: seq<string>, xs: seq<string>)
    requires |ws| == |xs| + 1
    requires forall i :: 0 <= i < |ws| ==> AllSpace(ws[i])
    requires forall i :: 0 < i < |xs| ==> ws[i] != []
    requires forall i :: 0 <= i < |xs| ==> xs[i] != [] && NoSpace(xs[i])
    ensures Fields(Interleave(ws, xs)) == xs
    decreases |xs|
  {
    if xs == [] {
      FieldsSkipSpace(ws[0], []);
      assert ws[0] + [] == ws[0];
    } else {
      var rest := Interleave(ws[1..], xs[1..]);
      FieldsOfInterleave(ws[1..], xs[1..]);
      InterleaveStart(ws[1..], xs[1..]);
      if |xs| > 1 {
        assert ws[1] != [] && rest[0] == ws[1][0];
      } else {
        assert rest == ws[1];
      }
      assert ws[0] + xs[0] + rest == ws[0] + (xs[0] + rest);
      FieldsSkipSpace(ws[0], xs[0] + rest);
      FieldsTakeWord(xs[0], rest);
      assert [xs[0]] + xs[1..] == xs;
    }
  }

  /** Every string is a layout: cut into its whitespace runs and its
      whitespace-free runs, it meets the conditions of `FieldsOfInterleave`. */
  lemma {:induction false} LayoutOf(s: string) returns (ws: seq<string>, xs: seq<string>)
    ensures |ws| == |xs| + 1 && Interleave(ws, xs) == s
    ensures forall i :: 0 <= i < |ws| ==> AllSpace(ws[i])
    ensures forall i :: 0 < i < |xs| ==> ws[i] != []
    ensures forall i :: 0 <= i < |xs| ==> xs[i] != [] && NoSpace(xs[i])
    ensures s == [] ==> xs == []
    ensures s != [] && IsSpace(s[0]) ==> ws[0] != []
    decreases |s|
  {
    if s == [] {
      ws, xs := [[]], [];
    } else if IsSpace(s[0]) {
      var ws', xs' := LayoutOf(s[1..]);
      ws, xs := [[s[0]] + ws'[0]] + ws'[1..], xs';
      assert ws[1..] == ws'[1..];
      if xs == [] {
        assert Interleave(ws, xs) == [s[0]] + s[1..];
      } else {
        assert Interleave(ws, xs) == ([s[0]] + ws'[0]) + xs'[0] + Interleave(ws'[1..], xs'[1..]);
        assert Interleave(ws', xs') == ws'[0] + xs'[0] + Interleave(ws'[1..], xs'[1..]);
      }
      assert [s[0]] + s[1..] == s;
    } else {
      var w := Word(s);
      var t := s[|w|..];
      var ws', xs' := LayoutOf(t);
      ws, xs := [[]] + ws', [w] + xs';
      assert ws[1..] == ws' && xs[1..] == xs';
      assert Interleave(ws, xs) == [] + w + t;
      assert w + t == s;
    }
  }

  /** `split()` of a string is the field sequence of its layout. */
  lemma SplitOfLayout(s: string)
    ensures exists ws: seq<string>, xs: seq<string> ::
      && |ws| == |xs| + 1 && Interleave(ws, xs) == s && Fields(s) == xs
      && (forall i :: 0 <= i < |ws| ==> AllSpace(ws[i]))
      && (forall i :: 0 < i < |xs| ==> ws[i] != [])
      && (forall i :: 0 <= i < |xs| ==> xs[i] != [] && NoSpace(xs[i]))
  {
    var ws, xs := LayoutOf(s);
    FieldsOfInterleave(ws, xs);
  }

  /** Python's `s.split("\n")`: one more piece than there are newlines. */
  function SplitLines(s: string): (r: seq<string>)
    ensures |r| >= 1
    ensures forall i :: 0 <= i < |r| ==> '\n' !in r[i]
    decreases |s|
  {
    if s == [] then [[]]
    else if s[0] == '\n' then [[]] + SplitLines(s[1..])
    else
      var rest := SplitLines(s[1..]);
      [[s[0]] + rest[0]] + rest[1..]
  }

  lemma JoinCons(x: string, xs: seq<string>, sep: string)
    requires |xs| >= 1
    ensures Join([x] + xs, sep) == x + sep + Join(xs, sep)
  {
    assert ([x] + xs)[1..] == xs;
  }

  /** Joining the pieces with newlines restores the original text. */
  lemma {:induction false} JoinSplitLines(s: string)
    ensures Join(SplitLines(s), "\n") == s
    decreases |s|
  {
    if s == [] {
    } else if s[0] == '\n' {
      var rest := SplitLines(s[1..]);
      JoinSplitLines(s[1..]);
      JoinCons([], rest, "\n");
      assert [s[0]] + s[1..] == s;
    } else {
      var rest := SplitLines(s[1..]);
      JoinSplitLines(s[1..]);
      var head := [s[0]] + rest[0];
      if |rest| == 1 {
        assert [s[0]] + s[1..] == s;
      } else {
        JoinCons(rest[0], rest[1..], "\n");
        assert [rest[0]] + rest[1..] == rest;
        JoinCons(head, rest[1..], "\n");
        assert head + "\n" + Join(rest[1..], "\n")
            == [s[0]] + (rest[0] + "\n" + Join(rest[1..], "\n"));
        assert [s[0]] + s[1..] == s;
      }
    }
  }

  lemma {:induction false} SplitLinesPrefix(w: string, t: string)
    requires '\n' !in w
    ensures SplitLines(w + t) == [w + SplitLines(t)[0]] + SplitLines(t)[1..]
    decreases |w|
  {
    if w == [] {
      assert w + t == t;
      assert w + SplitLines(t)[0] == SplitLines(t)[0];
      assert [SplitLines(t)[0]] + SplitLines(t)[1..] == SplitLines(t);
    } else {
      assert (w + t)[0] == w[0];
      assert (w + t)[1..] == w[1..] + t;
      SplitLinesPrefix(w[1..], t);
      assert [w[0]] + (w[1..] + SplitLines(t)[0]) == w + SplitLines(t)[0];
    }
  }

  /** Splitting newline-free pieces joined by newlines gives them back. */
  lemma {:induction false} SplitLinesOfJoin(xs: seq<string>)
    requires |xs| >= 1
    requires forall i :: 0 <= i < |xs| ==> '\n' !in xs[i]
    ensures SplitLines(Join(xs, "\n")) == xs
    decreases |xs|
  {
    if |xs| == 1 {
      SplitLinesPrefix(xs[0], []);
      assert xs[0] + [] == xs[0];
    } else {
      var rest := Join(xs[1..], "\n");
      assert Join(xs, "\n") == xs[0] + ("\n" + rest);
      SplitLinesPrefix(xs[0], "\n" + rest);
      assert ("\n" + rest)[1..] == rest;
      SplitLinesOfJoin(xs[1..]);
      assert xs[0] + [] == xs[0];
      assert [xs[0]] + xs[1..] == xs;
    }
  }

  /** Every piece is empty exactly when the text holds nothing but newlines. */
  lemma {:induction false} AllPiecesEmpty(s: string)
    ensures AllEmpty(SplitLines(s)) <==> AllNewlines(s)
    decreases |s|
  {
    if s == [] {
    } else if s[0] == '\n' {
      AllPiecesEmpty(s[1..]);
      var r := SplitLines(s[1..]);
      assert SplitLines(s) == [[]] + r;
      EmptyCons(r);
      NewlineCons(s);
    } else {
      assert SplitLines(s)[0] == [s[0]] + SplitLines(s[1..])[0];
      assert SplitLines(s)[0] != [];
      assert !AllNewlines(s) by { assert s[0] != '\n'; }
    }
  }

  predicate AllEmpty(pieces: seq<string>) {
    forall i :: 0 <= i < |pieces| ==> pieces[i] == []
  }

  predicate AllNewlines(s: string) {
    forall k :: 0 <= k < |s| ==> s[k] == '\n'
  }

  lemma EmptyCons(r: seq<string>)
    ensures AllEmpty([[]] + r) <==> AllEmpty(r)
  {
    var p := [[]] + r;
    if AllEmpty(r) {
      forall i | 0 <= i < |p| ensures p[i] == [] {
        if i > 0 { assert p[i] == r[i - 1]; }
      }
    }
    if AllEmpty(p) {
      forall i | 0 <= i < |r| ensures r[i] == [] {
        assert r[i] == p[i + 1];
      }
    }
  }

  lemma NewlineCons(s: string)
    requires s != [] && s[0] == '\n'
    ensures AllNewlines(s) <==> AllNewlines(s[1..])
  {
    if AllNewlines(s[1..]) {
      forall k | 0 <= k < |s| ensures s[k] == '\n' {
        if k > 0 { assert s[k] == s[1..][k - 1]; }
      }
    }
  }
}
