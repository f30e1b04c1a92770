/** The few pieces of Rust's string handling that the four input parsers use:
    `str::lines`, `str::trim`, `str::split` on one character,
    `str::split_whitespace`, and unsigned and signed integer parsing
    (`str::parse` and `from_str_radix`) restricted to the grammar the inputs use. */
module Text {
  import opened Results

  /** `char::is_whitespace`: the characters with the Unicode White_Space property. */
  predicate IsWhitespace(c: char) {
    || '\t' <= c <= '\r'
    || c == ' '
    || c == '\U{85}'
    || c == '\U{A0}'
    || c == '\U{1680}'
    || '\U{2000}' <= c <= '\U{200A}'
    || c == '\U{2028}'
    || c == '\U{2029}'
    || c == '\U{202F}'
    || c == '\U{205F}'
    || c == '\U{3000}'
  }

  predicate AllWhitespace(s: string) {
    forall i :: 0 <= i < |s| ==> IsWhitespace(s[i])
  }

  predicate NoWhitespace(s: string) {
    forall i :: 0 <= i < |s| ==> !IsWhitespace(s[i])
  }

  // ---------------------------------------------------------------------------
  // Sequences
  // ---------------------------------------------------------------------------

  /** A non-empty sequence is its front followed by its last element. */
  lemma InitLast<T>(s: seq<T>)
    requires |s| >= 1
    ensures s[..|s| - 1] + [s[|s| - 1]] == s
  {
  }

  /** The front and the last element of a concatenation whose second part
      is not empty. */
  lemma AppendInitLast<T>(a: seq<T>, b: seq<T>)
    requires |b| >= 1
    ensures (a + b)[..|a + b| - 1] == a + b[..|b| - 1]
    ensures (a + b)[|a + b| - 1] == b[|b| - 1]
  {
  }

  /** Three sequences joined, regrouped. */
  lemma Regroup<T>(a: seq<T>, b: seq<T>, c: seq<T>)
    ensures a + b + c == a + (b + c)
  {
  }

  // ---------------------------------------------------------------------------
  // Trimming
  // ---------------------------------------------------------------------------

  /** `str::trim_start`: the text after its leading whitespace. */
  function TrimStart(s: string): (r: string)
    ensures |r| <= |s|
    ensures r == [] || !IsWhitespace(r[0])
  {
    if s == [] then []
    else
      var r := TrimStart(s[..|s| - 1]);
      if r == [] && IsWhitespace(s[|s| - 1]) then [] else r + [s[|s| - 1]]
  }

  /** The start of the run of whitespace in `s` that ends at position `j`. */
  function BackWhitespace(s: string, j: nat): (i: nat)
    requires j <= |s|
    ensures i <= j
    ensures forall k :: i <= k < j ==> IsWhitespace(s[k])
    ensures i == 0 || !IsWhitespace(s[i - 1])
  {
    if j > 0 && IsWhitespace(s[j - 1]) then BackWhitespace(s, j - 1) else j
  }

  /** `str::trim_end`: the text before its trailing whitespace. */
  function TrimEnd(s: string): (r: string)
    ensures |r| <= |s|
    ensures r == s[..|r|]
    ensures r == [] || !IsWhitespace(r[|r| - 1])
  {
    s[..BackWhitespace(s, |s|)]
  }

  /** `str::trim`: both ends stripped of whitespace. */
  function Trim(s: string): (r: string)
    ensures |r| <= |s|
    ensures r == [] || (!IsWhitespace(r[0]) && !IsWhitespace(r[|r| - 1]))
  {
    TrimEnd(TrimStart(s))
  }

  /** Trimming only removes characters. */
  lemma {:induction false} TrimAvoids(s: string, c: char)
    requires c !in s
    ensures c !in Trim(s)
  {
    TrimStartAvoids(s, c);
  }

  lemma {:induction false} TrimStartAvoids(s: string, c: char)
    requires c !in s
    ensures c !in TrimStart(s)
  {
    if s != [] {
      var init := s[..|s| - 1];
      assert forall k :: 0 <= k < |init| ==> init[k] == s[k];
      TrimStartAvoids(init, c);
    }
  }

  /** Whitespace alone trims to nothing from the start. */
  lemma {:induction false} TrimStartWhitespace(s: string)
    requires AllWhitespace(s)
    ensures TrimStart(s) == []
  {
    if s != [] {
      TrimStartWhitespace(s[..|s| - 1]);
    }
  }

  /** Trimming the start removes exactly the whitespace in front of a text
      that does not start with whitespace. */
  lemma {:induction false} TrimStartPadded(pre: string, s: string)
    requires AllWhitespace(pre)
    requires s == [] || !IsWhitespace(s[0])
    ensures TrimStart(pre + s) == s
  {
    if s == [] {
      assert pre + s == pre;
      TrimStartWhitespace(pre);
    } else {
      var init := s[..|s| - 1];
      AppendInitLast(pre, s);
      if init != [] {
        assert init[0] == s[0];
      }
      TrimStartPadded(pre, init);
      InitLast(s);
    }
  }

  /** Trimming the end removes exactly the whitespace after a text that does
      not end with whitespace. */
  lemma TrimEndPadded(s: string, post: string)
    requires AllWhitespace(post)
    requires s == [] || !IsWhitespace(s[|s| - 1])
    ensures TrimEnd(s + post) == s
  {
    var x := s + post;
    forall k | |s| <= k < |x|
      ensures IsWhitespace(x[k])
    {
      assert x[k] == post[k - |s|];
    }
    if s != [] {
      assert x[|s| - 1] == s[|s| - 1];
    }
    assert BackWhitespace(x, |x|) == |s|;
    assert x[..|s|] == s;
  }

  /** Trimming removes exactly the whitespace padding around a text whose
      ends are not whitespace. */
  lemma TrimPadded(pre: string, s: string, post: string)
    requires AllWhitespace(pre) && AllWhitespace(post)
    requires s == [] || (!IsWhitespace(s[0]) && !IsWhitespace(s[|s| - 1]))
    ensures Trim(pre + s + post) == s
  {
    Regroup(pre, s, post);
    if s == [] {
      var x := pre + post;
      forall k | 0 <= k < |x|
        ensures IsWhitespace(x[k])
      {
        if k < |pre| {
          assert x[k] == pre[k];
        } else {
          assert x[k] == post[k - |pre|];
        }
      }
      TrimStartWhitespace(x);
      assert pre + s + post == x;
    } else {
      assert (s + post)[0] == s[0];
      TrimStartPadded(pre, s + post);
      TrimEndPadded(s, post);
    }
  }

  /** Trimming leaves a text without whitespace as it is. */
  lemma TrimNoWhitespace(s: string)
    requires NoWhitespace(s)
    ensures Trim(s) == s
  {
    TrimPadded([], s, []);
    assert [] + s + [] == s;
  }

  /** A run of whitespace trims to nothing. */
  lemma TrimWhitespace(s: string)
    requires AllWhitespace(s)
    ensures Trim(s) == []
  {
    TrimStartWhitespace(s);
  }

  // ---------------------------------------------------------------------------
  // Splitting
  // ---------------------------------------------------------------------------

  /** The characters after the last separator (all of `s` when there is none). */
  function OpenPiece(s: string, sep: char): (t: string)
    ensures sep !in t
  {
    if s == [] then []
    else if s[|s| - 1] == sep then []
    else OpenPiece(s[..|s| - 1], sep) + [s[|s| - 1]]
  }

  /** The pieces that a separator has already closed, in order. */
  function ClosedPieces(s: string, sep: char): (r: seq<string>)
    ensures forall i :: 0 <= i < |r| ==> sep !in r[i]
  {
    if s == [] then []
    else
      var init := s[..|s| - 1];
      if s[|s| - 1] == sep then ClosedPieces(init, sep) + [OpenPiece(init, sep)]
      else ClosedPieces(init, sep)
  }

  /** `str::split` on one separator character: all the pieces between
      separators, empty ones included, so there is always at least one. */
  function Split(s: string, sep: char): (r: seq<string>)
    ensures |r| >= 1
    ensures forall i :: 0 <= i < |r| ==> sep !in r[i]
  {
    ClosedPieces(s, sep) + [OpenPiece(s, sep)]
  }

  /** The pieces glued back together with the separator between them. */
  function Join(parts: seq<string>, sep: char): string
    requires |parts| >= 1
  {
    if |parts| == 1 then parts[0] else Join(parts[..|parts| - 1], sep) + [sep] + parts[|parts| - 1]
  }

  /** One more piece is joined after a separator. */
  lemma JoinSnoc(parts: seq<string>, p: string, sep: char)
    requires |parts| >= 1
    ensures Join(parts + [p], sep) == Join(parts, sep) + [sep] + p
  {
    assert (parts + [p])[..|parts|] == parts;
  }

  /** A character added to the last piece is added to the end of the join. */
  lemma JoinExtendLast(parts: seq<string>, c: char, sep: char)
    requires |parts| >= 1
    ensures Join(parts[..|parts| - 1] + [parts[|parts| - 1] + [c]], sep) == Join(parts, sep) + [c]
  {
    var n := |parts| - 1;
    var front := parts[..n];
    var last := parts[n];
    if n > 0 {
      JoinSnoc(front, last + [c], sep);
      Regroup(Join(front, sep) + [sep], last, [c]);
    } else {
      assert front + [last + [c]] == [last + [c]];
    }
  }

  /** Splitting loses nothing: joining the pieces gives the text back. */
  lemma {:induction false} JoinSplit(s: string, sep: char)
    ensures Join(Split(s, sep), sep) == s
  {
    if s != [] {
      var init := s[..|s| - 1];
      var c := s[|s| - 1];
      var r := Split(init, sep);
      JoinSplit(init, sep);
      InitLast(s);
      SplitSnoc(init, c, sep);
      if c == sep {
        JoinSnoc(r, [], sep);
        assert init + [sep] + [] == init + [c];
      } else {
        JoinExtendLast(r, c, sep);
      }
    }
  }

  /** Text without the separator is one piece. */
  lemma {:induction false} SplitPlain(p: string, sep: char)
    requires sep !in p
    ensures Split(p, sep) == [p]
  {
    if p != [] {
      var init := p[..|p| - 1];
      SplitPlain(init, sep);
      InitLast(p);
      SplitSnoc(init, p[|p| - 1], sep);
    }
  }

  /** One more character: a separator starts a new piece, any other
      character extends the last one. */
  lemma SplitSnoc(s: string, c: char, sep: char)
    ensures var r := Split(s, sep);
      Split(s + [c], sep) == if c == sep then r + [[]] else r[..|r| - 1] + [r[|r| - 1] + [c]]
  {
    var r := Split(s, sep);
    assert (s + [c])[..|s|] == s;
    assert r[..|r| - 1] == ClosedPieces(s, sep);
  }

  /** Extending the last element of `a + b` extends the last element of `b`. */
  lemma ExtendLastAppend<T>(a: seq<seq<T>>, b: seq<seq<T>>, c: T)
    requires |b| >= 1
    ensures var ab := a + b;
      ab[..|ab| - 1] + [ab[|ab| - 1] + [c]] == a + (b[..|b| - 1] + [b[|b| - 1] + [c]])
  {
    var ab := a + b;
    assert ab[..|ab| - 1] == a + b[..|b| - 1];
  }

  /** Splitting at a separator splits each side on its own. */
  lemma {:induction false} SplitAround(x: string, y: string, sep: char)
    ensures Split(x + [sep] + y, sep) == Split(x, sep) + Split(y, sep)
  {
    if y == [] {
      assert x + [sep] + y == x + [sep];
      SplitSnoc(x, sep, sep);
    } else {
      var init := y[..|y| - 1];
      var c := y[|y| - 1];
      var s := x + [sep] + init;
      SplitAround(x, init, sep);
      InitLast(y);
      assert x + [sep] + y == s + [c];
      SplitSnoc(s, c, sep);
      SplitSnoc(init, c, sep);
      if c == sep {
        assert Split(x, sep) + Split(init, sep) + [[]] == Split(x, sep) + (Split(init, sep) + [[]]);
      } else {
        ExtendLastAppend(Split(x, sep), Split(init, sep), c);
      }
    }
  }

  /** Joining separator-free pieces and splitting again gives the pieces back. */
  lemma {:induction false} SplitJoin(parts: seq<string>, sep: char)
    requires |parts| >= 1
    requires forall i :: 0 <= i < |parts| ==> sep !in parts[i]
    ensures Split(Join(parts, sep), sep) == parts
  {
    var n := |parts| - 1;
    if n == 0 {
      SplitPlain(parts[0], sep);
    } else {
      var front := parts[..n];
      SplitJoin(front, sep);
      SplitAround(Join(front, sep), parts[n], sep);
      SplitPlain(parts[n], sep);
      InitLast(parts);
    }
  }

  /** A character in none of the pieces, and not the separator, is not in their join. */
  lemma {:induction false} JoinAvoids(parts: seq<string>, sep: char, c: char)
    requires |parts| >= 1 && c != sep
    requires forall i :: 0 <= i < |parts| ==> c !in parts[i]
    ensures c !in Join(parts, sep)
  {
    if |parts| > 1 {
      JoinAvoids(parts[..|parts| - 1], sep, c);
    }
  }

  /** Pieces without whitespace joined by a separator that is not whitespace
      give a text without whitespace. */
  lemma {:induction false} JoinNoWhitespace(parts: seq<string>, sep: char)
    requires |parts| >= 1 && !IsWhitespace(sep)
    requires forall i :: 0 <= i < |parts| ==> NoWhitespace(parts[i])
    ensures NoWhitespace(Join(parts, sep))
  {
    var n := |parts| - 1;
    if n > 0 {
      var front := Join(parts[..n], sep);
      JoinNoWhitespace(parts[..n], sep);
      var s := front + [sep] + parts[n];
      forall k | 0 <= k < |s|
        ensures !IsWhitespace(s[k])
      {
        if k < |front| {
          assert s[k] == front[k];
        } else if k > |front| {
          assert s[k] == parts[n][k - |front| - 1];
        }
      }
    }
  }

  // ---------------------------------------------------------------------------
  // Splitting at whitespace
  // ---------------------------------------------------------------------------

  /** The whitespace-free run at the end of `s` (empty when `s` ends in
      whitespace). */
  function OpenToken(s: string): (t: string)
    ensures NoWhitespace(t)
    ensures t != [] <==> s != [] && !IsWhitespace(s[|s| - 1])
  {
    if s == [] then []
    else if IsWhitespace(s[|s| - 1]) then []
    else OpenToken(s[..|s| - 1]) + [s[|s| - 1]]
  }

  /** The tokens that whitespace has already ended, in order. */
  function ClosedTokens(s: string): (r: seq<string>)
    ensures forall i :: 0 <= i < |r| ==> r[i] != [] && NoWhitespace(r[i])
  {
    if s == [] then []
    else
      var init := s[..|s| - 1];
      if IsWhitespace(s[|s| - 1]) && OpenToken(init) != [] then ClosedTokens(init) + [OpenToken(init)]
      else ClosedTokens(init)
  }

  /** `str::split_whitespace`: the maximal whitespace-free runs of `s`, in
      order. */
  function SplitWhitespace(s: string): (r: seq<string>)
    ensures forall i :: 0 <= i < |r| ==> r[i] != [] && NoWhitespace(r[i])
    ensures s != [] && !IsWhitespace(s[|s| - 1]) ==> r != []
  {
    ClosedTokens(s) + if OpenToken(s) == [] then [] else [OpenToken(s)]
  }

  /** One more character: whitespace adds nothing, any other character
      extends the token its predecessor belongs to, or starts a new one. */
  lemma SplitWhitespaceSnoc(s: string, c: char)
    ensures var r := SplitWhitespace(s);
      SplitWhitespace(s + [c])
        == if IsWhitespace(c) then r
           else if s != [] && !IsWhitespace(s[|s| - 1]) then r[..|r| - 1] + [r[|r| - 1] + [c]]
           else r + [[c]]
  {
    var r := SplitWhitespace(s);
    var s2 := s + [c];
    assert s2[..|s|] == s;
    assert s2[|s2| - 1] == c;
    if IsWhitespace(c) {
      assert OpenToken(s2) == [];
      assert SplitWhitespace(s2) == ClosedTokens(s2) + [];
    } else {
      assert OpenToken(s2) == OpenToken(s) + [c];
      assert ClosedTokens(s2) == ClosedTokens(s);
      assert SplitWhitespace(s2) == ClosedTokens(s) + [OpenToken(s) + [c]];
      if s != [] && !IsWhitespace(s[|s| - 1]) {
        assert r == ClosedTokens(s) + [OpenToken(s)];
        assert r[..|r| - 1] == ClosedTokens(s);
      } else {
        assert r == ClosedTokens(s) + [];
        assert OpenToken(s) + [c] == [c];
      }
    }
  }

  /** Trailing whitespace adds no token. */
  lemma {:induction false} SplitWhitespaceSkip(x: string, w: string)
    requires AllWhitespace(w)
    ensures SplitWhitespace(x + w) == SplitWhitespace(x)
  {
    if w != [] {
      AppendInitLast(x, w);
      SplitWhitespaceSkip(x, w[..|w| - 1]);
      InitLast(x + w);
      SplitWhitespaceSnoc(x + w[..|w| - 1], w[|w| - 1]);
    } else {
      assert x + w == x;
    }
  }

  /** A token after whitespace, or at the very start, is one more token. */
  lemma {:induction false} SplitWhitespaceToken(x: string, w: string, t: string)
    requires AllWhitespace(w) && (w != [] || x == [])
    requires t != [] && NoWhitespace(t)
    ensures SplitWhitespace(x + w + t) == SplitWhitespace(x) + [t]
  {
    var s := x + w + t;
    var init := t[..|t| - 1];
    var c := t[|t| - 1];
    AppendInitLast(x + w, t);
    InitLast(s);
    if init == [] {
      SplitWhitespaceSkip(x, w);
      SplitWhitespaceSnoc(x + w, c);
      if x + w != [] {
        assert (x + w)[|x + w| - 1] == w[|w| - 1];
      }
      assert t == [c];
    } else {
      var prefix := x + w + init;
      SplitWhitespaceToken(x, w, init);
      SplitWhitespaceSnoc(prefix, c);
      assert prefix[|prefix| - 1] == init[|init| - 1];
      var r := SplitWhitespace(x) + [init];
      assert r[..|r| - 1] == SplitWhitespace(x);
      InitLast(t);
    }
  }

  /** Tokens each preceded by its own run of whitespace, as in text aligned
      in columns. */
  function Laid(pads: seq<string>, tokens: seq<string>): string
    requires |pads| == |tokens|
  {
    if tokens == [] then []
    else
      var n := |tokens| - 1;
      Laid(pads[..n], tokens[..n]) + pads[n] + tokens[n]
  }

  /** Splitting aligned text at whitespace recovers its tokens, whatever the
      width of the gaps, as long as every gap after the first is non-empty. */
  lemma {:induction false} SplitWhitespaceLaid(pads: seq<string>, tokens: seq<string>)
    requires |pads| == |tokens|
    requires forall i :: 0 <= i < |pads| ==> AllWhitespace(pads[i])
    requires forall i :: 1 <= i < |pads| ==> pads[i] != []
    requires forall i :: 0 <= i < |tokens| ==> tokens[i] != [] && NoWhitespace(tokens[i])
    ensures SplitWhitespace(Laid(pads, tokens)) == tokens
  {
    if tokens != [] {
      var n := |tokens| - 1;
      SplitWhitespaceLaid(pads[..n], tokens[..n]);
      SplitWhitespaceToken(Laid(pads[..n], tokens[..n]), pads[n], tokens[n]);
      InitLast(tokens);
    }
  }

  /** Aligned text ends with the last character of its last token. */
  lemma LaidLast(pads: seq<string>, tokens: seq<string>)
    requires |pads| == |tokens| && tokens != [] && tokens[|tokens| - 1] != []
    ensures var s := Laid(pads, tokens); var t := tokens[|tokens| - 1];
      s != [] && s[|s| - 1] == t[|t| - 1]
  {
  }

  /** Aligned text is its first gap followed by the same text without that gap. */
  lemma {:induction false} LaidFirstGap(pads: seq<string>, tokens: seq<string>)
    requires |pads| == |tokens| && tokens != []
    ensures Laid(pads, tokens) == pads[0] + Laid(pads[0 := []], tokens)
  {
    var n := |tokens| - 1;
    var bare := pads[0 := []];
    if n == 0 {
      assert pads[..0] == bare[..0];
    } else {
      assert bare[..n] == pads[..n][0 := []];
      LaidFirstGap(pads[..n], tokens[..n]);
      assert bare[n] == pads[n];
    }
  }

  /** Aligned text without a first gap starts with the first token. */
  lemma {:induction false} LaidFirstToken(pads: seq<string>, tokens: seq<string>)
    requires |pads| == |tokens| && tokens != [] && pads[0] == [] && tokens[0] != []
    ensures Laid(pads, tokens) != [] && Laid(pads, tokens)[0] == tokens[0][0]
  {
    var n := |tokens| - 1;
    if n > 0 {
      LaidFirstToken(pads[..n], tokens[..n]);
    }
  }

  /** Trimming aligned text drops the gap before its first token and nothing else. */
  lemma TrimLaid(pads: seq<string>, tokens: seq<string>)
    requires |pads| == |tokens| && tokens != []
    requires AllWhitespace(pads[0])
    requires forall i :: 0 <= i < |tokens| ==> tokens[i] != [] && NoWhitespace(tokens[i])
    ensures Trim(Laid(pads, tokens)) == Laid(pads[0 := []], tokens)
  {
    var bare := pads[0 := []];
    var rest := Laid(bare, tokens);
    LaidFirstGap(pads, tokens);
    LaidFirstToken(bare, tokens);
    LaidLast(bare, tokens);
    assert pads[0] + rest + [] == Laid(pads, tokens);
    TrimPadded(pads[0], rest, []);
  }

  /** A character in none of the gaps and none of the tokens is not in the text. */
  lemma {:induction false} LaidAvoids(pads: seq<string>, tokens: seq<string>, c: char)
    requires |pads| == |tokens|
    requires forall i :: 0 <= i < |pads| ==> c !in pads[i] && c !in tokens[i]
    ensures c !in Laid(pads, tokens)
  {
    if tokens != [] {
      LaidAvoids(pads[..|tokens| - 1], tokens[..|tokens| - 1], c);
    }
  }

  // ---------------------------------------------------------------------------
  // Lines
  // ---------------------------------------------------------------------------

  /** `str::lines`: the text cut at each '\n', a '\r' just before a '\n'
      dropped, and no empty line produced after a final '\n'. */
  function Lines(s: string): (r: seq<string>)
    ensures forall i :: 0 <= i < |r| ==> '\n' !in r[i]
  {
    var pieces := Split(s, '\n');
    var last := |pieces| - 1;
    seq(last, i requires 0 <= i < last => StripCarriageReturn(pieces[i]))
      + (if pieces[last] == [] then [] else [pieces[last]])
  }

  /** Lines joined with '\n' are cut back into the same lines, provided
      none holds a '\n', none but the last ends with '\r', and the last is
      not empty. */
  lemma LinesJoin(lines: seq<string>)
    requires |lines| >= 1 && lines[|lines| - 1] != []
    requires forall i :: 0 <= i < |lines| ==> '\n' !in lines[i]
    requires forall i :: 0 <= i < |lines| - 1 ==> lines[i] == [] || lines[i][|lines[i]| - 1] != '\r'
    ensures Lines(Join(lines, '\n')) == lines
  {
    var pieces := Split(Join(lines, '\n'), '\n');
    SplitJoin(lines, '\n');
    var last := |pieces| - 1;
    var init := seq(last, i requires 0 <= i < last => StripCarriageReturn(pieces[i]));
    forall i | 0 <= i < last
      ensures init[i] == lines[i]
    {
      assert pieces[i] == lines[i];
    }
    assert init == lines[..last];
    assert Lines(Join(lines, '\n')) == init + [pieces[last]];
    InitLast(lines);
  }

  function StripCarriageReturn(line: string): (r: string)
    ensures r <= line
  {
    if line != [] && line[|line| - 1] == '\r' then line[..|line| - 1] else line
  }

  /** Reads every line with `parse`, in order; the index of the first line it
      rejects is the error. */
  function ParseEach<T>(lines: seq<string>, parse: string -> Option<T>): (r: Result<seq<T>, nat>)
    ensures r.Success? <==> forall i :: 0 <= i < |lines| ==> parse(lines[i]).Some?
    ensures r.Success? ==> |r.value| == |lines|
                           && forall i :: 0 <= i < |lines| ==> parse(lines[i]) == Some(r.value[i])
    ensures r.Failure? ==> r.error < |lines| && parse(lines[r.error]).None?
                           && forall i :: 0 <= i < r.error ==> parse(lines[i]).Some?
  {
    if lines == [] then Success([])
    else
      var n := |lines| - 1;
      var init := lines[..n];
      assert forall i :: 0 <= i < n ==> init[i] == lines[i];
      match ParseEach(init, parse)
      case Failure(bad) => Failure(bad)
      case Success(xs) =>
        match parse(lines[n])
        case None => Failure(n)
        case Some(x) => Success(xs + [x])
  }

  // ---------------------------------------------------------------------------
  // Numbers
  // ---------------------------------------------------------------------------

  /** The radixes the solvers parse in. */
  type Radix = r: nat | r == 2 || r == 10 witness 10

  predicate IsDigit(c: char, radix: Radix) {
    '0' <= c && (c as int) - ('0' as int) < radix
  }

  predicate AllDigits(s: string, radix: Radix) {
    forall i :: 0 <= i < |s| ==> IsDigit(s[i], radix)
  }

  /** The value of a digit; a character that is not a digit counts as zero,
      which the parsers below never rely on. */
  function DigitValue(c: char, radix: Radix): (d: nat)
    ensures d < radix
  {
    if IsDigit(c, radix) then (c as int) - ('0' as int) else 0
  }

  function DigitChar(d: nat, radix: Radix): (c: char)
    requires d < radix
    ensures IsDigit(c, radix) && DigitValue(c, radix) == d
  {
    ('0' as int + d) as char
  }

  /** The value of a digit string, most significant digit first. */
  function Value(s: string, radix: Radix): nat {
    if s == [] then 0 else radix * Value(s[..|s| - 1], radix) + DigitValue(s[|s| - 1], radix)
  }

  /** The shortest digit string of `n`. */
  function Show(n: nat, radix: Radix): (s: string)
    ensures s != [] && AllDigits(s, radix) && NoWhitespace(s)
  {
    if n < radix then [DigitChar(n, radix)] else Show(n / radix, radix) + [DigitChar(n % radix, radix)]
  }

  lemma {:induction false} ValueShow(n: nat, radix: Radix)
    ensures Value(Show(n, radix), radix) == n
  {
    if n >= radix {
      var s := Show(n, radix);
      assert s[..|s| - 1] == Show(n / radix, radix);
      ValueShow(n / radix, radix);
    }
  }

  /** Rust's unsigned `str::parse` (radix 10) and `from_str_radix` (radix 2)
      for a type whose largest value is `max`: an optional '+', then at least
      one digit, the whole denoting a value no larger than `max`. */
  function ParseUnsigned(s: string, radix: Radix, max: nat): (r: Option<nat>)
    ensures r.Some? ==> r.value <= max
  {
    var digits := if s != [] && s[0] == '+' then s[1..] else s;
    if digits != [] && AllDigits(digits, radix) && Value(digits, radix) <= max then
      Some(Value(digits, radix))
    else
      None
  }

  /** Every value in range is read back from its own digit string. */
  lemma ParseShow(n: nat, radix: Radix, max: nat)
    requires n <= max
    ensures ParseUnsigned(Show(n, radix), radix, max) == Some(n)
  {
    ValueShow(n, radix);
  }

  const I32_MIN: int := -0x8000_0000
  const I32_MAX: int := 0x7FFF_FFFF

  predicate IsI32(x: int) {
    I32_MIN <= x <= I32_MAX
  }

  /** Rust's `str::parse::<i32>`: an optional '+' or '-', then at least one
      decimal digit, the whole denoting a value of type i32. */
  function ParseI32(s: string): (r: Option<int>)
    ensures r.Some? ==> IsI32(r.value)
  {
    if s != [] && s[0] == '-' then
      var digits := s[1..];
      if digits != [] && AllDigits(digits, 10) && Value(digits, 10) <= -I32_MIN then
        var magnitude: int := Value(digits, 10);
        Some(-magnitude)
      else
        None
    else
      ParseUnsigned(s, 10, I32_MAX)
  }

  function ShowI32(x: int): string {
    if x < 0 then "-" + Show(-x, 10) else Show(x, 10)
  }

  /** Every i32 is read back from its own decimal representation. */
  lemma ParseShowI32(x: int)
    requires IsI32(x)
    ensures ParseI32(ShowI32(x)) == Some(x)
  {
    if x < 0 {
      ValueShow(-x, 10);
      ParseI32Negative(Show(-x, 10), x);
    } else {
      var s := Show(x, 10);
      ParseShow(x, 10, I32_MAX);
      assert IsDigit(s[0], 10);
      ParseI32NonNegative(s);
    }
  }

  /** A '-' followed by digits reads as the negated value, when it is an i32. */
  lemma ParseI32Negative(digits: string, x: int)
    requires digits != [] && AllDigits(digits, 10) && Value(digits, 10) <= -I32_MIN
    requires x + Value(digits, 10) == 0
    ensures ParseI32("-" + digits) == Some(x)
  {
    assert ("-" + digits)[1..] == digits;
  }

  /** Text not starting with '-' reads as an unsigned number. */
  lemma ParseI32NonNegative(s: string)
    requires s != [] && s[0] != '-'
    ensures ParseI32(s) == ParseUnsigned(s, 10, I32_MAX)
  {
  }
}
