/** Whitespace handling of the text-record parser: trimming a string before
    a number is read from it, and splitting a line into whitespace-separated
    words.  The two use different sets of white space. */
module Text {

  /** The white space that integer parsing trims (space, tab, line feed,
      vertical tab, form feed, carriage return). */
  predicate IsSpace(c: char) {
    c == ' ' || ('\t' <= c <= '\r')
  }

  /** The ASCII white space that separates words when a line is split: the
      characters above and the four separators 0x1C to 0x1F.  Lines are
      ASCII by the time they are split. */
  predicate IsSplitSpace(c: char) {
    IsSpace(c) || ('\U{1C}' <= c <= '\U{1F}')
  }

  /** A non-empty run of characters that do not separate words. */
  predicate IsWord(w: string) {
    |w| > 0 && forall i :: 0 <= i < |w| ==> !IsSplitSpace(w[i])
  }

  predicate AllSplitSpace(s: string) {
    forall i :: 0 <= i < |s| ==> IsSplitSpace(s[i])
  }

  predicate AllSpace(s: string) {
    forall i :: 0 <= i < |s| ==> IsSpace(s[i])
  }

  /** The string with leading white space removed. */
  function TrimStart(s: string): (t: string)
    ensures |t| <= |s|
  {
    if s != [] && IsSpace(s[0]) then TrimStart(s[1..]) else s
  }

  /** The string with trailing white space removed. */
  function TrimEnd(s: string): (t: string)
    ensures |t| <= |s|
  {
    if s != [] && IsSpace(s[|s| - 1]) then TrimEnd(s[..|s| - 1]) else s
  }

  /** TrimStart removes exactly the leading run of white space. */
  lemma {:induction false} TrimStartSpec(s: string)
    ensures var t := TrimStart(s);
      && t == s[|s| - |t|..]
      && (t != [] ==> !IsSpace(t[0]))
      && AllSpace(s[..|s| - |t|])
  {
    if s != [] && IsSpace(s[0]) {
      TrimStartSpec(s[1..]);
      var t := TrimStart(s);
      assert s[..|s| - |t|] == [s[0]] + s[1..][..|s| - 1 - |t|];
    }
  }

  /** TrimEnd removes exactly the trailing run of white space. */
  lemma {:induction false} TrimEndSpec(s: string)
    ensures var t := TrimEnd(s);
      && t == s[..|t|]
      && (t != [] ==> !IsSpace(t[|t| - 1]))
      && AllSpace(s[|t|..])
  {
    if s != [] && IsSpace(s[|s| - 1]) {
      TrimEndSpec(s[..|s| - 1]);
      var t := TrimEnd(s);
      assert s[|t|..] == s[..|s| - 1][|t|..] + [s[|s| - 1]];
    }
  }

  /** The string with white space removed from both ends. */
  function Strip(s: string): (t: string)
    ensures |t| <= |s|
  {
    TrimEnd(TrimStart(s))
  }

  /** Strip leaves a substring of the input that neither starts nor ends
      with white space, and only white space is removed around it. */
  lemma StripSpec(s: string)
    ensures var t := Strip(s);
      && (t != [] ==> !IsSpace(t[0]) && !IsSpace(t[|t| - 1]))
      && exists i :: 0 <= i <= |s| - |t| && s[i..i + |t|] == t
            && AllSpace(s[..i]) && AllSpace(s[i + |t|..])
  {
    var u := TrimStart(s);
    var t := TrimEnd(u);
    TrimStartSpec(s);
    TrimEndSpec(u);
    var i := |s| - |u|;
    assert s[i..i + |t|] == t;
    assert s[i + |t|..] == u[|t|..];
  }

  /** A string that neither starts nor ends with white space is its own strip. */
  lemma StripUnchanged(s: string)
    requires s != [] ==> !IsSpace(s[0]) && !IsSpace(s[|s| - 1])
    ensures Strip(s) == s
  {
  }

  /** The string with its leading word separators removed. */
  function SkipSeparators(s: string): (t: string)
    ensures |t| <= |s|
  {
    if s != [] && IsSplitSpace(s[0]) then SkipSeparators(s[1..]) else s
  }

  /** SkipSeparators removes exactly the leading run of separators. */
  lemma {:induction false} SkipSeparatorsSpec(s: string)
    ensures var t := SkipSeparators(s);
      && t == s[|s| - |t|..]
      && (t != [] ==> !IsSplitSpace(t[0]))
      && AllSplitSpace(s[..|s| - |t|])
  {
    if s != [] && IsSplitSpace(s[0]) {
      SkipSeparatorsSpec(s[1..]);
      var t := SkipSeparators(s);
      assert s[..|s| - |t|] == [s[0]] + s[1..][..|s| - 1 - |t|];
    }
  }

  /** Length of the word at the start of s: up to the first separator. */
  function WordLength(s: string): (n: nat)
    ensures n <= |s|
  {
    if s == [] || IsSplitSpace(s[0]) then 0 else 1 + WordLength(s[1..])
  }

  lemma {:induction false} WordLengthSpec(s: string)
    ensures forall i :: 0 <= i < WordLength(s) ==> !IsSplitSpace(s[i])
    ensures WordLength(s) < |s| ==> IsSplitSpace(s[WordLength(s)])
  {
    if s != [] && !IsSplitSpace(s[0]) {
      WordLengthSpec(s[1..]);
    }
  }

  /** The words of a line, in order: runs of separators split words and
      never produce empty ones (leading and trailing separators included). */
  function Split(s: string): (ws: seq<string>)
    decreases |s|
  {
    var t := SkipSeparators(s);
    if t == [] then []
    else
      SkipSeparatorsSpec(s);
      var n := WordLength(t);
      [t[..n]] + Split(t[n..])
  }

  /** Every element of a split is a word. */
  lemma {:induction false} SplitWords(s: string)
    ensures forall i :: 0 <= i < |Split(s)| ==> IsWord(Split(s)[i])
    decreases |s|
  {
    var t := SkipSeparators(s);
    if t != [] {
      SkipSeparatorsSpec(s);
      WordLengthSpec(t);
      var n := WordLength(t);
      SplitWords(t[n..]);
    }
  }

  /** The characters of s that are not separators, in order. */
  function Kept(s: string): (k: string)
    ensures |k| <= |s|
  {
    if s == [] then []
    else if IsSplitSpace(s[0]) then Kept(s[1..])
    else [s[0]] + Kept(s[1..])
  }

  /** Words concatenated, with nothing between them. */
  function Flatten(ws: seq<string>): string {
    if ws == [] then [] else ws[0] + Flatten(ws[1..])
  }

  /** Splitting loses exactly the separators: the words, put back to back,
      are the line's other characters in their order. */
  lemma {:induction false} SplitKeeps(s: string)
    ensures Flatten(Split(s)) == Kept(s)
    decreases |s|
  {
    var t := SkipSeparators(s);
    SkipSeparatorsSpec(s);
    var p := s[..|s| - |t|];
    assert s == p + t;
    KeptSkips(p, t);
    if t != [] {
      var n := WordLength(t);
      SplitKeeps(t[n..]);
      KeepsWord(t, n, Split(t[n..]));
    }
  }

  /** The word at the front of t, put before the words of the rest, keeps
      what t keeps. */
  lemma KeepsWord(t: string, n: nat, ws: seq<string>)
    requires n == WordLength(t)
    requires Flatten(ws) == Kept(t[n..])
    ensures Flatten([t[..n]] + ws) == Kept(t)
  {
    WordLengthSpec(t);
    assert ([t[..n]] + ws)[1..] == ws;
    assert t == t[..n] + t[n..];
    KeptWord(t[..n], t[n..]);
  }

  /** Separators in front contribute nothing to the kept characters. */
  lemma {:induction false} KeptSkips(p: string, t: string)
    requires AllSplitSpace(p)
    ensures Kept(p + t) == Kept(t)
    decreases |p|
  {
    if p != [] {
      assert IsSplitSpace((p + t)[0]) && (p + t)[1..] == p[1..] + t;
      KeptSkips(p[1..], t);
    } else {
      assert p + t == t;
    }
  }

  /** A run without separators is kept whole. */
  lemma {:induction false} KeptWord(w: string, t: string)
    requires forall i :: 0 <= i < |w| ==> !IsSplitSpace(w[i])
    ensures Kept(w + t) == w + Kept(t)
    decreases |w|
  {
    if w != [] {
      assert !IsSplitSpace((w + t)[0]) && (w + t)[1..] == w[1..] + t;
      KeptWord(w[1..], t);
      assert w == [w[0]] + w[1..];
    } else {
      assert w + t == t;
    }
  }

  /** Words joined with single spaces. */
  function Join(ws: seq<string>): string {
    if ws == [] then []
    else if |ws| == 1 then ws[0]
    else ws[0] + " " + Join(ws[1..])
  }

  lemma SplitAfterSpace(s: string)
    ensures Split(" " + s) == Split(s)
  {
    assert (" " + s)[1..] == s;
  }

  /** A word followed by a separator (or nothing) splits off as one word. */
  lemma SplitWord(w: string, rest: string)
    requires IsWord(w)
    requires rest == [] || IsSplitSpace(rest[0])
    ensures Split(w + rest) == [w] + Split(rest)
  {
    var s := w + rest;
    assert SkipSeparators(s) == s;
    WordLengthOfWord(w, rest);
    assert s[..|w|] == w;
    assert s[|w|..] == rest;
  }

  /** Splitting words that were joined by spaces, with any trailing
      separators (such as the line break), gives the words back. */
  lemma {:induction false} SplitJoin(ws: seq<string>, trail: string)
    requires forall i :: 0 <= i < |ws| ==> IsWord(ws[i])
    requires AllSplitSpace(trail)
    ensures Split(Join(ws) + trail) == ws
  {
    if |ws| <= 1 {
      SplitJoinShort(ws, trail);
    } else {
      SplitJoin(ws[1..], trail);
      SplitJoinStep(ws[0], ws[1..], trail);
      assert [ws[0]] + ws[1..] == ws;
    }
  }

  lemma SplitJoinShort(ws: seq<string>, trail: string)
    requires |ws| <= 1 && (ws != [] ==> IsWord(ws[0]))
    requires AllSplitSpace(trail)
    ensures Split(Join(ws) + trail) == ws
  {
    if ws == [] {
      assert Join(ws) + trail == trail;
      SplitTrail(trail);
    } else {
      SplitJoinSingle(ws[0], trail);
      assert ws == [ws[0]];
    }
  }

  lemma SplitJoinSingle(w: string, trail: string)
    requires IsWord(w) && AllSplitSpace(trail)
    ensures Split(Join([w]) + trail) == [w]
  {
    assert Join([w]) == w;
    assert trail == [] || IsSplitSpace(trail[0]);
    SplitWord(w, trail);
    SplitTrail(trail);
  }

  lemma SplitJoinStep(w: string, ws: seq<string>, trail: string)
    requires IsWord(w) && ws != []
    requires Split(Join(ws) + trail) == ws
    ensures Split(Join([w] + ws) + trail) == [w] + ws
  {
    JoinCons(w, ws, trail);
    SplitSpaced(w, Join(ws) + trail);
  }

  lemma JoinCons(w: string, ws: seq<string>, trail: string)
    requires ws != []
    ensures Join([w] + ws) + trail == w + (" " + (Join(ws) + trail))
  {
    assert ([w] + ws)[1..] == ws;
  }

  lemma SplitSpaced(w: string, tail: string)
    requires IsWord(w)
    ensures Split(w + (" " + tail)) == [w] + Split(tail)
  {
    SplitWord(w, " " + tail);
    SplitAfterSpace(tail);
  }

  lemma SplitTrail(s: string)
    requires AllSplitSpace(s)
    ensures Split(s) == []
  {
    TrailIsSeparators(s);
  }

  lemma {:induction false} TrailIsSeparators(s: string)
    requires AllSplitSpace(s)
    ensures SkipSeparators(s) == []
  {
    if s != [] {
      TrailIsSeparators(s[1..]);
    }
  }

  lemma {:induction false} WordLengthOfWord(w: string, rest: string)
    requires IsWord(w)
    requires rest == [] || IsSplitSpace(rest[0])
    ensures WordLength(w + rest) == |w|
  {
    if |w| > 1 {
      assert (w + rest)[1..] == w[1..] + rest;
      WordLengthOfWord(w[1..], rest);
    } else {
      assert (w + rest)[1..] == rest;
    }
  }

  /** The separator 0x1C is white space to splitting but not to integer
      parsing: stripping leaves it in place. */
  lemma SeparatorNotStripped()
    ensures Strip("\U{1C}1") == "\U{1C}1"
  {
    var u := "\U{1C}1";
    assert !IsSpace(u[0]) && !IsSpace(u[|u| - 1]);
    StripUnchanged(u);
  }

  /** Two words around the separator 0x1C split into the two words. */
  lemma SplitAtSeparator(v: string, w: string)
    requires IsWord(v) && IsWord(w)
    ensures Split(v + ("\U{1C}" + w)) == [v, w]
  {
    SplitWord(v, "\U{1C}" + w);
    SplitSeparatedWord(w);
  }

  /** A word behind one separator splits to itself. */
  lemma SplitSeparatedWord(w: string)
    requires IsWord(w)
    ensures Split("\U{1C}" + w) == [w]
  {
    var s := "\U{1C}" + w;
    assert s[1..] == w;
    assert SkipSeparators(w) == w;
    assert SkipSeparators(s) == w;
    SplitWord(w, "");
    assert w + "" == w;
    SplitTrail("");
  }
}
