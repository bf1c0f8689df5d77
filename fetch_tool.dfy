/**
 * tools/fetch_tool.py: the whitespace cleanup applied to a fetched page's text, the
 * fetch of one URL (HTTP and HTML parsing are a collaborator's answer), and
 * `fetch_multiple`.
 */
module FetchTool {
  import opened Wrappers

  /** Python's `str.isspace()` for one character. */
  predicate IsSpace(c: char)
  {
    c == ' ' || c == '\t' || c == '\n' || c == '\r' || c == '\U{0B}' || c == '\U{0C}'
    || ('\U{1C}' <= c <= '\U{1F}') || c == '\U{85}' || c == '\U{A0}' || c == '\U{1680}'
    || ('\U{2000}' <= c <= '\U{200A}') || c == '\U{2028}' || c == '\U{2029}'
    || c == '\U{202F}' || c == '\U{205F}' || c == '\U{3000}'
  }

  /** The line boundaries of Python's `str.splitlines()` ("\r\n" counts as one, see LineEnd). */
  predicate IsLineBreak(c: char)
  {
    c == '\n' || c == '\r' || c == '\U{0B}' || c == '\U{0C}' || ('\U{1C}' <= c <= '\U{1E}')
    || c == '\U{85}' || c == '\U{2028}' || c == '\U{2029}'
  }

  predicate NoLineBreak(s: string)
  {
    forall i :: 0 <= i < |s| ==> !IsLineBreak(s[i])
  }

  predicate NoDoubleSpace(s: string)
  {
    forall i :: 0 <= i < |s| - 1 ==> !(s[i] == ' ' && s[i + 1] == ' ')
  }

  /** No whitespace at either end. */
  predicate Trimmed(s: string)
  {
    s == [] || (!IsSpace(s[0]) && !IsSpace(s[|s| - 1]))
  }

  /** The shape of cleaned text: one line, trimmed, single-spaced. */
  predicate Tidy(s: string)
  {
    NoLineBreak(s) && Trimmed(s) && NoDoubleSpace(s)
  }

  /** The non-whitespace characters of s, in order. */
  function Squeeze(s: string): string
  {
    if s == [] then [] else (if IsSpace(s[0]) then [] else [s[0]]) + Squeeze(s[1..])
  }

  lemma {:induction false} SqueezeAppend(a: string, b: string)
    ensures Squeeze(a + b) == Squeeze(a) + Squeeze(b)
  {
    if a != [] {
      assert (a + b)[0] == a[0];
      assert (a + b)[1..] == a[1..] + b;
      SqueezeAppend(a[1..], b);
    } else {
      assert a + b == b;
    }
  }

  /** `sep.join(parts)`. */
  function JoinWith(parts: seq<string>, sep: string): string
  {
    if parts == [] then []
    else if |parts| == 1 then parts[0]
    else parts[0] + sep + JoinWith(parts[1..], sep)
  }

  // ---------------------------------------------------------------- splitlines

  /** The index of the first line boundary in s, or |s| when there is none. */
  function FirstBreak(s: string): (i: nat)
    ensures i <= |s|
    ensures i < |s| ==> IsLineBreak(s[i])
    ensures NoLineBreak(s[..i])
  {
    if s == [] then 0
    else if IsLineBreak(s[0]) then 0
    else
      var j := FirstBreak(s[1..]);
      assert s[..1 + j] == [s[0]] + s[1..][..j];
      1 + j
  }

  /** Where the next line starts after the boundary at i: "\r\n" is a single boundary. */
  function LineEnd(s: string, i: nat): (e: nat)
    requires i < |s|
    ensures i < e <= |s|
  {
    if s[i] == '\r' && i + 1 < |s| && s[i + 1] == '\n' then i + 2 else i + 1
  }

  /** Python's `s.splitlines()`: a final boundary does not open an empty last line. */
  function SplitLines(s: string): (lines: seq<string>)
    ensures forall k :: 0 <= k < |lines| ==> NoLineBreak(lines[k])
    decreases |s|
  {
    if s == [] then []
    else
      var i := FirstBreak(s);
      if i == |s| then
        assert s[..i] == s;
        [s]
      else
        [s[..i]] + SplitLines(s[LineEnd(s, i)..])
  }

  /** One boundary of `splitlines`: "\r\n", or a single line-break character. */
  predicate Boundary(b: string)
  {
    b == "\r\n" || (|b| == 1 && IsLineBreak(b[0]))
  }

  /** The boundary after each line of SplitLines(s); the last line may end with the text instead. */
  function LineEnds(s: string): seq<string>
    decreases |s|
  {
    if s == [] then []
    else
      var i := FirstBreak(s);
      if i == |s| then [""] else [s[i..LineEnd(s, i)]] + LineEnds(s[LineEnd(s, i)..])
  }

  /** Each line followed by its boundary, concatenated: `''.join(s.splitlines(keepends=True))`. */
  function Rejoin(lines: seq<string>, ends: seq<string>): string
    requires |lines| == |ends|
  {
    if lines == [] then [] else lines[0] + ends[0] + Rejoin(lines[1..], ends[1..])
  }

  /**
   * The lines are the stretches of s between boundaries: putting each line's boundary back
   * after it gives s again, every line but the last ends with exactly one boundary, and the
   * last ends with one or with the text.
   */
  lemma {:induction false} SplitLinesJoin(s: string)
    ensures |LineEnds(s)| == |SplitLines(s)|
    ensures Rejoin(SplitLines(s), LineEnds(s)) == s
    ensures forall k :: 0 <= k < |LineEnds(s)| - 1 ==> Boundary(LineEnds(s)[k])
    ensures LineEnds(s) != [] ==> var last := LineEnds(s)[|LineEnds(s)| - 1]; last == [] || Boundary(last)
    decreases |s|
  {
    if s != [] {
      var i := FirstBreak(s);
      if i == |s| {
        assert s[..i] == s;
        assert Rejoin([s], [""]) == s + "" + Rejoin([], []);
      } else {
        var e := LineEnd(s, i);
        SplitLinesJoin(s[e..]);
        LinesCons(s);
        BoundaryAt(s, i);
        RejoinCons(s[..i], s[i..e], SplitLines(s[e..]), LineEnds(s[e..]));
        BoundariesCons(s[i..e], LineEnds(s[e..]));
        ThreeCut(s, i, e);
      }
    }
  }

  lemma {:induction false} ThreeCut(s: string, i: nat, e: nat)
    requires i <= e <= |s|
    ensures s == s[..i] + s[i..e] + s[e..]
  {
    assert s[..e] == s[..i] + s[i..e];
    assert s == s[..e] + s[e..];
  }

  /** A text with a line boundary: its first line, that boundary, then the lines of the rest. */
  lemma {:induction false} LinesCons(s: string)
    requires s != [] && FirstBreak(s) < |s|
    ensures var i := FirstBreak(s); var e := LineEnd(s, i);
            && SplitLines(s) == [s[..i]] + SplitLines(s[e..])
            && LineEnds(s) == [s[i..e]] + LineEnds(s[e..])
  {
  }

  lemma {:induction false} RejoinCons(line: string, end: string, lines: seq<string>, ends: seq<string>)
    requires |lines| == |ends|
    ensures Rejoin([line] + lines, [end] + ends) == line + end + Rejoin(lines, ends)
  {
    assert ([line] + lines)[1..] == lines;
    assert ([end] + ends)[1..] == ends;
  }

  lemma {:induction false} BoundariesCons(b: string, ends: seq<string>)
    requires Boundary(b)
    requires forall k :: 0 <= k < |ends| - 1 ==> Boundary(ends[k])
    requires ends != [] ==> ends[|ends| - 1] == [] || Boundary(ends[|ends| - 1])
    ensures forall k :: 0 <= k < |[b] + ends| - 1 ==> Boundary(([b] + ends)[k])
    ensures var all := [b] + ends; all[|all| - 1] == [] || Boundary(all[|all| - 1])
  {
    var all := [b] + ends;
    forall k | 0 <= k < |all| - 1 ensures Boundary(all[k]) {
      if k > 0 {
        assert all[k] == ends[k - 1];
      }
    }
  }

  /**
   * The two rules that make the reading unique: a line that is empty is followed by a
   * boundary, so a final boundary opens no empty last line; and a lone "\r" boundary is not
   * followed by an empty line ended by "\n", since "\r\n" is one boundary.
   */
  lemma {:induction false} SplitLinesCanonical(s: string)
    ensures |LineEnds(s)| == |SplitLines(s)|
    ensures Canonical(SplitLines(s), LineEnds(s))
    decreases |s|
  {
    SplitLinesJoin(s);
    if s != [] {
      var i := FirstBreak(s);
      if i < |s| {
        var e := LineEnd(s, i);
        var u := s[e..];
        var lines, ends := SplitLines(u), LineEnds(u);
        SplitLinesJoin(u);
        SplitLinesCanonical(u);
        LinesCons(s);
        BoundaryAt(s, i);
        if s[i..e] == "\r" && lines != [] && lines[0] == [] {
          assert e == i + 1 && u != [] && u[0] != '\n';
          assert FirstBreak(u) == 0;
          LinesCons(u);
          assert ends[0] == u[..LineEnd(u, 0)] && ends[0][0] == u[0];
        }
        CanonicalCons(s[..i], s[i..e], lines, ends);
      } else {
        assert SplitLines(s) == [s] && LineEnds(s) == [""];
      }
    }
  }

  /** Every empty line ends with a boundary, and no lone "\r" is followed by an empty line ended by "\n". */
  predicate Canonical(lines: seq<string>, ends: seq<string>)
    requires |lines| == |ends|
  {
    && (forall k :: 0 <= k < |lines| ==> lines[k] != [] || ends[k] != [])
    && (forall k :: 0 <= k < |lines| - 1 && ends[k] == "\r" ==> lines[k + 1] != [] || ends[k + 1] != "\n")
  }

  lemma {:induction false} CanonicalCons(line: string, end: string, lines: seq<string>, ends: seq<string>)
    requires |lines| == |ends| && Canonical(lines, ends)
    requires end != []
    requires end == "\r" && lines != [] ==> lines[0] != [] || ends[0] != "\n"
    ensures Canonical([line] + lines, [end] + ends)
  {
    var ls, es := [line] + lines, [end] + ends;
    forall k | 0 <= k < |ls| ensures ls[k] != [] || es[k] != [] {
      if k > 0 {
        assert ls[k] == lines[k - 1] && es[k] == ends[k - 1];
      }
    }
    forall k | 0 <= k < |ls| - 1 && es[k] == "\r" ensures ls[k + 1] != [] || es[k + 1] != "\n" {
      assert ls[k + 1] == lines[k] && es[k + 1] == ends[k];
      if k > 0 {
        assert es[k] == ends[k - 1] && ls[k] == lines[k - 1];
      }
    }
  }

  lemma {:induction false} BoundaryAt(s: string, i: nat)
    requires i < |s| && IsLineBreak(s[i])
    ensures Boundary(s[i..LineEnd(s, i)])
  {
    if LineEnd(s, i) == i + 2 {
      assert s[i..i + 2] == [s[i], s[i + 1]];
    } else {
      assert s[i..i + 1] == [s[i]];
    }
  }

  // ---------------------------------------------------------------- strip

  /** s holds whitespace only: it has no non-whitespace character. */
  predicate AllSpace(s: string)
  {
    Squeeze(s) == []
  }

  /** `s.lstrip()`: drops the leading whitespace and nothing else. */
  function LStrip(s: string): (r: string)
    ensures |r| <= |s|
    ensures r == s[|s| - |r|..]
    ensures r == [] || !IsSpace(r[0])
    ensures Squeeze(r) == Squeeze(s)
  {
    if s != [] && IsSpace(s[0]) then LStrip(s[1..]) else s
  }

  /** `s.rstrip()`: drops the trailing whitespace and nothing else. */
  function RStrip(s: string): (r: string)
    ensures |r| <= |s|
    ensures r == s[..|r|]
    ensures r == [] || !IsSpace(r[|r| - 1])
    ensures Squeeze(r) == Squeeze(s)
  {
    if s != [] && IsSpace(s[|s| - 1]) then
      var n := |s| - 1;
      assert s == s[..n] + [s[n]];
      SqueezeAppend(s[..n], [s[n]]);
      RStrip(s[..n])
    else s
  }

  /** What `lstrip()` cuts off is whitespace only. */
  lemma {:induction false} LStripCut(s: string)
    ensures AllSpace(s[..|s| - |LStrip(s)|])
  {
    if s != [] && IsSpace(s[0]) {
      var r := LStrip(s[1..]);
      LStripCut(s[1..]);
      var cut := s[..|s| - |r|];
      assert cut[0] == s[0] && cut[1..] == s[1..][..|s| - 1 - |r|];
    }
  }

  /** What `rstrip()` cuts off is whitespace only. */
  lemma {:induction false} RStripCut(s: string)
    ensures AllSpace(s[|RStrip(s)|..])
  {
    if s != [] && IsSpace(s[|s| - 1]) {
      var n := |s| - 1;
      var r := RStrip(s[..n]);
      RStripCut(s[..n]);
      assert s[|r|..] == s[..n][|r|..] + [s[n]];
      SpaceSnoc(s[..n][|r|..], s[n]);
    }
  }

  lemma {:induction false} SpaceSnoc(t: string, c: char)
    requires AllSpace(t) && IsSpace(c)
    ensures AllSpace(t + [c])
  {
    SqueezeAppend(t, [c]);
  }

  /** Python's `s.strip()` with no argument. */
  function Strip(s: string): (r: string)
    ensures Trimmed(r)
    ensures Squeeze(r) == Squeeze(s)
  {
    RStrip(LStrip(s))
  }

  /**
   * `strip()` keeps a middle slice of s and cuts off whitespace only, at either end:
   * whitespace inside the slice stays.
   */
  lemma {:induction false} StripSlice(s: string)
    ensures exists a :: 0 <= a <= |s| - |Strip(s)| && Strip(s) == s[a..a + |Strip(s)|]
                        && AllSpace(s[..a]) && AllSpace(s[a + |Strip(s)|..])
  {
    LStripCut(s);
    RStripCut(LStrip(s));
    MiddleSlice(s, LStrip(s), Strip(s));
  }

  /** A whitespace-led suffix's prefix followed by whitespace is a whitespace-framed middle slice. */
  lemma {:induction false} MiddleSlice(s: string, l: string, r: string)
    requires |l| <= |s| && l == s[|s| - |l|..] && AllSpace(s[..|s| - |l|])
    requires |r| <= |l| && r == l[..|r|] && AllSpace(l[|r|..])
    ensures exists a :: 0 <= a <= |s| - |r| && r == s[a..a + |r|] && AllSpace(s[..a]) && AllSpace(s[a + |r|..])
  {
    var a := |s| - |l|;
    SliceOfSuffix(s, a, l, |r|);
    assert 0 <= a <= |s| - |r| && r == s[a..a + |r|] && AllSpace(s[..a]) && AllSpace(s[a + |r|..]);
  }

  /** A prefix of a suffix is a middle slice, and what follows it is a suffix. */
  lemma {:induction false} SliceOfSuffix(s: string, a: nat, l: string, k: nat)
    requires a <= |s| && l == s[a..] && k <= |l|
    ensures a + k <= |s| && l[..k] == s[a..a + k] && l[k..] == s[a + k..]
  {
  }

  /** Stripping cuts a slice out of s, so it keeps s's one-line, single-spaced shape. */
  lemma {:induction false} StripShape(s: string)
    ensures NoLineBreak(s) ==> NoLineBreak(Strip(s))
    ensures NoDoubleSpace(s) ==> NoDoubleSpace(Strip(s))
  {
    var l := LStrip(s);
    DropShape(s, |s| - |l|);
    TakeShape(l, |RStrip(l)|);
  }

  lemma {:induction false} DropShape(s: string, a: nat)
    requires a <= |s|
    ensures NoLineBreak(s) ==> NoLineBreak(s[a..])
    ensures NoDoubleSpace(s) ==> NoDoubleSpace(s[a..])
  {
    var t := s[a..];
    assert forall i :: 0 <= i < |t| ==> t[i] == s[a + i];
  }

  lemma {:induction false} TakeShape(s: string, b: nat)
    requires b <= |s|
    ensures NoLineBreak(s) ==> NoLineBreak(s[..b])
    ensures NoDoubleSpace(s) ==> NoDoubleSpace(s[..b])
  {
    var t := s[..b];
    assert forall i :: 0 <= i < |t| ==> t[i] == s[i];
  }

  lemma {:induction false} StripTrimmed(s: string)
    requires Trimmed(s)
    ensures Strip(s) == s
  {
  }

  // ---------------------------------------------------------------- split("  ")

  /** Python's `s.split("  ")`: cut at each double space, scanning left to right. */
  function SplitDoubleSpace(s: string): (pieces: seq<string>)
    ensures |pieces| >= 1
    ensures pieces[0] <= s
    ensures forall k :: 0 <= k < |pieces| ==> NoDoubleSpace(pieces[k])
    decreases |s|
  {
    if |s| < 2 then [s]
    else if s[0] == ' ' && s[1] == ' ' then [""] + SplitDoubleSpace(s[2..])
    else
      var rest := SplitDoubleSpace(s[1..]);
      [[s[0]] + rest[0]] + rest[1..]
  }

  /** Joining the pieces back with the separator gives the input again. */
  lemma {:induction false} SplitDoubleSpaceJoin(s: string)
    ensures JoinWith(SplitDoubleSpace(s), "  ") == s
    decreases |s|
  {
    if |s| >= 2 {
      if s[0] == ' ' && s[1] == ' ' {
        SplitDoubleSpaceJoin(s[2..]);
        JoinEmptyHead(SplitDoubleSpace(s[2..]), "  ");
        assert s == "  " + s[2..];
      } else {
        SplitDoubleSpaceJoin(s[1..]);
        JoinGlueHead(s[0], SplitDoubleSpace(s[1..]), "  ");
        assert s == [s[0]] + s[1..];
      }
    }
  }

  lemma {:induction false} JoinEmptyHead(parts: seq<string>, sep: string)
    requires |parts| >= 1
    ensures JoinWith([""] + parts, sep) == sep + JoinWith(parts, sep)
  {
    assert ([""] + parts)[1..] == parts;
  }

  lemma {:induction false} JoinGlueHead(c: char, parts: seq<string>, sep: string)
    requires |parts| >= 1
    ensures JoinWith([[c] + parts[0]] + parts[1..], sep) == [c] + JoinWith(parts, sep)
  {
    var glued := [[c] + parts[0]] + parts[1..];
    assert glued[1..] == parts[1..];
    if |parts| > 1 {
      assert JoinWith(glued, sep) == ([c] + parts[0]) + sep + JoinWith(parts[1..], sep);
    }
  }

  lemma {:induction false} SplitDoubleSpaceLines(s: string)
    requires NoLineBreak(s)
    ensures forall k :: 0 <= k < |SplitDoubleSpace(s)| ==> NoLineBreak(SplitDoubleSpace(s)[k])
    decreases |s|
  {
    if |s| >= 2 {
      if s[0] == ' ' && s[1] == ' ' {
        SplitDoubleSpaceLines(s[2..]);
      } else {
        SplitDoubleSpaceLines(s[1..]);
      }
    }
  }

  lemma {:induction false} SplitDoubleSpaceSqueeze(s: string)
    ensures SqueezeAll(SplitDoubleSpace(s)) == Squeeze(s)
    decreases |s|
  {
    if |s| >= 2 {
      if s[0] == ' ' && s[1] == ' ' {
        SplitDoubleSpaceSqueeze(s[2..]);
        assert s == "  " + s[2..];
        SqueezeCut(SplitDoubleSpace(s[2..]), s[2..]);
      } else {
        SplitDoubleSpaceSqueeze(s[1..]);
        assert s == [s[0]] + s[1..];
        SqueezeGlue(s[0], SplitDoubleSpace(s[1..]), s[1..]);
      }
    }
  }

  /** A cut at a double space drops only the two spaces. */
  lemma {:induction false} SqueezeCut(pieces: seq<string>, tail: string)
    requires SqueezeAll(pieces) == Squeeze(tail)
    ensures SqueezeAll([""] + pieces) == Squeeze("  " + tail)
  {
    SqueezeAppend("  ", tail);
    assert ([""] + pieces)[1..] == pieces;
  }

  /** A character glued to the first piece keeps its place ahead of the rest. */
  lemma {:induction false} SqueezeGlue(c: char, pieces: seq<string>, tail: string)
    requires |pieces| >= 1 && SqueezeAll(pieces) == Squeeze(tail)
    ensures SqueezeAll([[c] + pieces[0]] + pieces[1..]) == Squeeze([c] + tail)
  {
    SqueezeAppend([c], pieces[0]);
    SqueezeAppend([c], tail);
    assert ([[c] + pieces[0]] + pieces[1..])[1..] == pieces[1..];
  }

  // ---------------------------------------------------------------- the cleanup

  /** The non-whitespace characters of all parts, in order. */
  function SqueezeAll(parts: seq<string>): string
  {
    if parts == [] then [] else Squeeze(parts[0]) + SqueezeAll(parts[1..])
  }

  lemma {:induction false} SqueezeAllAppend(a: seq<string>, b: seq<string>)
    ensures SqueezeAll(a + b) == SqueezeAll(a) + SqueezeAll(b)
  {
    if a != [] {
      assert (a + b)[0] == a[0];
      assert (a + b)[1..] == a[1..] + b;
      SqueezeAllAppend(a[1..], b);
    } else {
      assert a + b == b;
    }
  }

  function StripAll(parts: seq<string>): (r: seq<string>)
  {
    seq(|parts|, k requires 0 <= k < |parts| => Strip(parts[k]))
  }

  /** The `phrase.strip()` generator: every stripped phrase of every stripped line, empty ones included. */
  function Phrases(lines: seq<string>): seq<string>
  {
    if lines == [] then []
    else StripAll(SplitDoubleSpace(Strip(lines[0]))) + Phrases(lines[1..])
  }

  /** The join's `if chunk`: the non-empty parts, in order. */
  function NonEmpty(parts: seq<string>): (r: seq<string>)
    ensures forall k :: 0 <= k < |r| ==> r[k] != []
  {
    if parts == [] then []
    else (if parts[0] == [] then [] else [parts[0]]) + NonEmpty(parts[1..])
  }

  /** A part the final join may receive: non-empty, one line, trimmed, single-spaced. */
  predicate Phrase(p: string)
  {
    p != [] && Tidy(p)
  }

  lemma {:induction false} PhrasesTidy(lines: seq<string>)
    requires forall k :: 0 <= k < |lines| ==> NoLineBreak(lines[k])
    ensures forall k :: 0 <= k < |Phrases(lines)| ==> Tidy(Phrases(lines)[k])
  {
    if lines != [] {
      var line := Strip(lines[0]);
      StripShape(lines[0]);
      var pieces := SplitDoubleSpace(line);
      SplitDoubleSpaceLines(line);
      StripAllTidy(pieces);
      PhrasesTidy(lines[1..]);
      TidyAppend(StripAll(pieces), Phrases(lines[1..]));
    }
  }

  lemma {:induction false} StripAllTidy(pieces: seq<string>)
    requires forall k :: 0 <= k < |pieces| ==> NoLineBreak(pieces[k]) && NoDoubleSpace(pieces[k])
    ensures forall k :: 0 <= k < |StripAll(pieces)| ==> Tidy(StripAll(pieces)[k])
  {
    forall k | 0 <= k < |pieces| ensures Tidy(StripAll(pieces)[k]) {
      StripShape(pieces[k]);
    }
  }

  lemma {:induction false} TidyAppend(here: seq<string>, rest: seq<string>)
    requires forall k :: 0 <= k < |here| ==> Tidy(here[k])
    requires forall k :: 0 <= k < |rest| ==> Tidy(rest[k])
    ensures forall k :: 0 <= k < |here + rest| ==> Tidy((here + rest)[k])
  {
    forall k | 0 <= k < |here + rest| ensures Tidy((here + rest)[k]) {
      if k >= |here| {
        assert (here + rest)[k] == rest[k - |here|];
      }
    }
  }

  lemma {:induction false} PhrasesSqueeze(lines: seq<string>)
    ensures SqueezeAll(Phrases(lines)) == SqueezeAll(lines)
  {
    if lines != [] {
      var pieces := SplitDoubleSpace(Strip(lines[0]));
      StripAllSqueeze(pieces);
      SplitDoubleSpaceSqueeze(Strip(lines[0]));
      PhrasesSqueeze(lines[1..]);
      SqueezeAllAppend(StripAll(pieces), Phrases(lines[1..]));
    }
  }

  lemma {:induction false} StripAllSqueeze(parts: seq<string>)
    ensures SqueezeAll(StripAll(parts)) == SqueezeAll(parts)
  {
    if parts != [] {
      var stripped := StripAll(parts);
      assert stripped[1..] == StripAll(parts[1..]);
      StripAllSqueeze(parts[1..]);
      assert Squeeze(stripped[0]) == Squeeze(parts[0]);
      assert SqueezeAll(stripped) == Squeeze(stripped[0]) + SqueezeAll(stripped[1..]);
    }
  }

  lemma {:induction false} NonEmptyKeeps(parts: seq<string>)
    requires forall k :: 0 <= k < |parts| ==> Tidy(parts[k])
    ensures forall k :: 0 <= k < |NonEmpty(parts)| ==> Phrase(NonEmpty(parts)[k])
    ensures SqueezeAll(NonEmpty(parts)) == SqueezeAll(parts)
  {
    if parts != [] {
      NonEmptyKeeps(parts[1..]);
      var head := if parts[0] == [] then [] else [parts[0]];
      SqueezeAllAppend(head, NonEmpty(parts[1..]));
    }
  }

  lemma {:induction false} SplitLinesSqueeze(s: string)
    ensures SqueezeAll(SplitLines(s)) == Squeeze(s)
    decreases |s|
  {
    if s != [] {
      var i := FirstBreak(s);
      if i < |s| {
        var e := LineEnd(s, i);
        var later := SplitLines(s[e..]);
        SplitLinesSqueeze(s[e..]);
        assert SplitLines(s) == [s[..i]] + later;
        SqueezeAllCons(s[..i], later);
        BoundarySqueeze(s, i);
        SqueezeAround(s, i, e);
      } else {
        SqueezeAllCons(s, []);
      }
    }
  }

  lemma {:induction false} SqueezeAllCons(part: string, parts: seq<string>)
    ensures SqueezeAll([part] + parts) == Squeeze(part) + SqueezeAll(parts)
  {
    assert ([part] + parts)[1..] == parts;
  }

  /** Squeezing skips a stretch that holds only whitespace. */
  lemma {:induction false} SqueezeAround(s: string, i: nat, e: nat)
    requires i <= e <= |s| && Squeeze(s[i..e]) == []
    ensures Squeeze(s) == Squeeze(s[..i]) + Squeeze(s[e..])
  {
    var before, gap, after := s[..i], s[i..e], s[e..];
    assert s == (before + gap) + after;
    SqueezeAppend(before + gap, after);
    SqueezeAppend(before, gap);
    assert Squeeze(before + gap) == Squeeze(before);
  }

  /** A line boundary is whitespace only. */
  lemma {:induction false} BoundarySqueeze(s: string, i: nat)
    requires i < |s| && IsLineBreak(s[i])
    ensures Squeeze(s[i..LineEnd(s, i)]) == []
  {
    var e := LineEnd(s, i);
    if e == i + 2 {
      assert s[i..e] == [s[i]] + [s[i + 1]];
      SqueezeAppend([s[i]], [s[i + 1]]);
    } else {
      assert s[i..e] == [s[i]];
    }
  }

  /** Joining tidy non-empty parts with single spaces gives tidy text with the same non-whitespace. */
  lemma {:induction false} JoinPhrases(parts: seq<string>)
    requires forall k :: 0 <= k < |parts| ==> Phrase(parts[k])
    ensures Tidy(JoinWith(parts, " "))
    ensures Squeeze(JoinWith(parts, " ")) == SqueezeAll(parts)
    ensures parts != [] ==> Phrase(JoinWith(parts, " "))
  {
    if |parts| == 1 {
      assert SqueezeAll(parts) == Squeeze(parts[0]) + SqueezeAll([]);
    } else if |parts| > 1 {
      var a, b := parts[0], JoinWith(parts[1..], " ");
      JoinPhrases(parts[1..]);
      JoinTwo(a, b);
      assert JoinWith(parts, " ") == (a + " ") + b;
      SqueezeAppend(a + " ", b);
      SqueezeAppend(a, " ");
      assert Squeeze(" ") == [];
      assert SqueezeAll(parts) == Squeeze(a) + SqueezeAll(parts[1..]);
    }
  }

  lemma {:induction false} JoinTwo(a: string, b: string)
    requires Phrase(a) && Phrase(b)
    ensures Phrase(a + " " + b)
  {
    var r := a + " " + b;
    assert forall i :: 0 <= i < |a| ==> r[i] == a[i];
    assert r[|a|] == ' ';
    assert forall i :: |a| < i < |r| ==> r[i] == b[i - |a| - 1];
    assert NoDoubleSpace(r) by {
      forall i | 0 <= i < |r| - 1 ensures !(r[i] == ' ' && r[i + 1] == ' ') {
        if i < |a| - 1 {
          assert r[i + 1] == a[i + 1];
        } else if i == |a| - 1 {
          assert r[i] == a[|a| - 1];
        } else if i == |a| {
          assert r[i + 1] == b[0];
        } else {
          assert r[i] == b[i - |a| - 1] && r[i + 1] == b[i - |a|];
        }
      }
    }
  }

  /**
   * The cleanup of `fetch_url`: split into lines, strip each, cut each at double spaces, strip the
   * phrases, drop the empty ones and join the rest with single spaces.
   */
  function CleanWhitespace(text: string): (r: string)
    ensures Tidy(r)
    ensures Squeeze(r) == Squeeze(text)
  {
    var lines := SplitLines(text);
    PhrasesTidy(lines);
    NonEmptyKeeps(Phrases(lines));
    PhrasesSqueeze(lines);
    SplitLinesSqueeze(text);
    JoinPhrases(NonEmpty(Phrases(lines)));
    JoinWith(NonEmpty(Phrases(lines)), " ")
  }

  /** Text that is already clean comes back unchanged. */
  lemma {:induction false} CleanTidyFixed(t: string)
    requires Tidy(t)
    ensures CleanWhitespace(t) == t
  {
    if t != [] {
      assert SplitLines(t) == [t];
      StripTrimmed(t);
      SplitDoubleSpaceWhole(t);
      assert StripAll([t]) == [t];
      assert Phrases([t]) == [t] + Phrases([]);
      assert NonEmpty([t]) == [t] + NonEmpty([]);
    }
  }

  lemma {:induction false} SplitDoubleSpaceWhole(s: string)
    requires NoDoubleSpace(s)
    ensures SplitDoubleSpace(s) == [s]
    decreases |s|
  {
    if |s| >= 2 {
      DropShape(s, 1);
      SplitDoubleSpaceWhole(s[1..]);
      assert [s[0]] + s[1..] == s;
    }
  }

  /** Cleaning twice is cleaning once. */
  lemma {:induction false} CleanIdempotent(text: string)
    ensures CleanWhitespace(CleanWhitespace(text)) == CleanWhitespace(text)
  {
    CleanTidyFixed(CleanWhitespace(text));
  }

  /** The result is empty exactly when the input is empty or all whitespace. */
  lemma {:induction false} CleanBlank(text: string)
    ensures CleanWhitespace(text) == [] <==> Squeeze(text) == []
  {
    var r := CleanWhitespace(text);
    if r != [] {
      assert Squeeze(r) == [r[0]] + Squeeze(r[1..]);
    }
  }

  // ---------------------------------------------------------------- words

  /** The words of s: its maximal runs of non-whitespace characters, in order. */
  function Words(s: string): (w: seq<string>)
    ensures s != [] && !IsSpace(s[0]) ==> w != []
    ensures forall k :: 0 <= k < |w| ==> w[k] != []
    decreases |s|
  {
    if s == [] then []
    else if IsSpace(s[0]) then Words(s[1..])
    else
      var rest := Words(s[1..]);
      if |s| > 1 && !IsSpace(s[1]) then [[s[0]] + rest[0]] + rest[1..] else [[s[0]]] + rest
  }

  /** The words of all parts, part after part. */
  function WordsAll(parts: seq<string>): seq<string>
  {
    if parts == [] then [] else Words(parts[0]) + WordsAll(parts[1..])
  }

  lemma {:induction false} WordsAllAppend(a: seq<string>, b: seq<string>)
    ensures WordsAll(a + b) == WordsAll(a) + WordsAll(b)
  {
    if a != [] {
      assert (a + b)[0] == a[0];
      assert (a + b)[1..] == a[1..] + b;
      WordsAllAppend(a[1..], b);
    } else {
      assert a + b == b;
    }
  }

  lemma {:induction false} WordsAllCons(part: string, parts: seq<string>)
    ensures WordsAll([part] + parts) == Words(part) + WordsAll(parts)
  {
    assert ([part] + parts)[1..] == parts;
  }

  /** Leading whitespace holds no word. */
  lemma {:induction false} WordsSpaceHead(g: string, b: string)
    requires AllSpace(g)
    ensures Words(g + b) == Words(b)
    decreases |g|
  {
    if g != [] {
      assert (g + b)[1..] == g[1..] + b;
      WordsSpaceHead(g[1..], b);
    } else {
      assert g + b == b;
    }
  }

  /** A non-empty stretch of whitespace ends the word before it and holds none itself. */
  lemma {:induction false} WordsCut(a: string, g: string, b: string)
    requires g != [] && AllSpace(g)
    ensures Words(a + g + b) == Words(a) + Words(b)
    decreases |a|
  {
    if a == [] {
      assert a + g + b == g + b;
      WordsSpaceHead(g, b);
    } else {
      var s := a + g + b;
      assert s[0] == a[0] && s[1..] == a[1..] + g + b;
      WordsCut(a[1..], g, b);
      if !IsSpace(a[0]) {
        assert s[1] == if |a| > 1 then a[1] else g[0];
      }
    }
  }

  /** Trailing whitespace holds no word. */
  lemma {:induction false} WordsSpaceTail(a: string, g: string)
    requires AllSpace(g)
    ensures Words(a + g) == Words(a)
  {
    if g != [] {
      WordsCut(a, g, []);
      assert a + g + [] == a + g;
    } else {
      assert a + g == a;
    }
  }

  /** `strip()` keeps the words. */
  lemma {:induction false} WordsStrip(s: string)
    ensures Words(Strip(s)) == Words(s)
  {
    WordsLStrip(s);
    WordsRStrip(LStrip(s));
  }

  lemma {:induction false} WordsLStrip(s: string)
    ensures Words(LStrip(s)) == Words(s)
  {
    var l := LStrip(s);
    LStripCut(s);
    assert s == s[..|s| - |l|] + l;
    WordsSpaceHead(s[..|s| - |l|], l);
  }

  lemma {:induction false} WordsRStrip(s: string)
    ensures Words(RStrip(s)) == Words(s)
  {
    var r := RStrip(s);
    RStripCut(s);
    assert s == r + s[|r|..];
    WordsSpaceTail(r, s[|r|..]);
  }

  /** Joining with a whitespace separator puts the parts' words one after another. */
  lemma {:induction false} WordsJoin(parts: seq<string>, sep: string)
    requires sep != [] && AllSpace(sep)
    ensures Words(JoinWith(parts, sep)) == WordsAll(parts)
  {
    if |parts| == 1 {
      assert WordsAll(parts) == Words(parts[0]) + WordsAll([]);
    } else if |parts| > 1 {
      WordsJoin(parts[1..], sep);
      WordsCut(parts[0], sep, JoinWith(parts[1..], sep));
    }
  }

  /** `splitlines()` cuts only at whitespace. */
  lemma {:induction false} WordsSplitLines(s: string)
    ensures WordsAll(SplitLines(s)) == Words(s)
    decreases |s|
  {
    if s != [] {
      var i := FirstBreak(s);
      if i < |s| {
        var e := LineEnd(s, i);
        WordsSplitLines(s[e..]);
        assert SplitLines(s) == [s[..i]] + SplitLines(s[e..]);
        WordsAllCons(s[..i], SplitLines(s[e..]));
        BoundarySqueeze(s, i);
        ThreeCut(s, i, e);
        WordsCut(s[..i], s[i..e], s[e..]);
      } else {
        WordsAllCons(s, []);
      }
    }
  }

  /** `split("  ")` cuts only at spaces. */
  lemma {:induction false} WordsSplitDoubleSpace(s: string)
    ensures WordsAll(SplitDoubleSpace(s)) == Words(s)
  {
    SplitDoubleSpaceJoin(s);
    assert Squeeze("  ") == [];
    WordsJoin(SplitDoubleSpace(s), "  ");
  }

  lemma {:induction false} WordsStripAll(parts: seq<string>)
    ensures WordsAll(StripAll(parts)) == WordsAll(parts)
  {
    if parts != [] {
      var stripped := StripAll(parts);
      assert stripped[1..] == StripAll(parts[1..]);
      WordsStripAll(parts[1..]);
      assert Words(stripped[0]) == Words(parts[0]) by {
        WordsStrip(parts[0]);
      }
      assert WordsAll(stripped) == Words(stripped[0]) + WordsAll(stripped[1..]);
    }
  }

  lemma {:induction false} WordsPhrases(lines: seq<string>)
    ensures WordsAll(Phrases(lines)) == WordsAll(lines)
  {
    if lines != [] {
      var pieces := SplitDoubleSpace(Strip(lines[0]));
      WordsStripAll(pieces);
      WordsSplitDoubleSpace(Strip(lines[0]));
      WordsStrip(lines[0]);
      WordsPhrases(lines[1..]);
      WordsAllAppend(StripAll(pieces), Phrases(lines[1..]));
    }
  }

  lemma {:induction false} WordsNonEmpty(parts: seq<string>)
    ensures WordsAll(NonEmpty(parts)) == WordsAll(parts)
  {
    if parts != [] {
      WordsNonEmpty(parts[1..]);
      var head := if parts[0] == [] then [] else [parts[0]];
      WordsAllAppend(head, NonEmpty(parts[1..]));
    }
  }

  /**
   * The cleanup keeps every word and the separation between words: whitespace between two
   * words shrinks, but never to nothing, and none is added inside a word.
   */
  lemma {:induction false} CleanWords(text: string)
    ensures Words(CleanWhitespace(text)) == Words(text)
  {
    var lines := SplitLines(text);
    assert Squeeze(" ") == [];
    WordsJoin(NonEmpty(Phrases(lines)), " ");
    WordsNonEmpty(Phrases(lines));
    WordsPhrases(lines);
    WordsSplitLines(text);
  }

  // ---------------------------------------------------------------- single spaces

  /** A character that is not whitespace, or is the plain space. */
  predicate Blank(c: char)
  {
    !IsSpace(c) || c == ' '
  }

  /** The only whitespace in s is the plain space. */
  predicate OnlyBlank(s: string)
  {
    forall i :: 0 <= i < |s| ==> Blank(s[i])
  }

  /** The only whitespace in s is the plain space and line boundaries. */
  predicate PlainText(s: string)
  {
    forall i :: 0 <= i < |s| ==> Blank(s[i]) || IsLineBreak(s[i])
  }

  lemma {:induction false} BlankSlice(s: string, a: nat, b: nat)
    requires OnlyBlank(s) && a <= b <= |s|
    ensures OnlyBlank(s[a..b])
  {
    assert forall i :: 0 <= i < b - a ==> s[a..b][i] == s[a + i];
  }

  lemma {:induction false} BlankAppend(a: string, b: string)
    requires OnlyBlank(a) && OnlyBlank(b)
    ensures OnlyBlank(a + b)
  {
    assert forall i :: |a| <= i < |a + b| ==> (a + b)[i] == b[i - |a|];
  }

  lemma {:induction false} BlankStrip(s: string)
    requires OnlyBlank(s)
    ensures OnlyBlank(Strip(s))
  {
    var l := LStrip(s);
    BlankSlice(s, |s| - |l|, |s|);
    BlankSlice(l, 0, |RStrip(l)|);
  }

  /** The lines of plain text hold no whitespace but plain spaces. */
  lemma {:induction false} BlankLines(s: string)
    requires PlainText(s)
    ensures forall k :: 0 <= k < |SplitLines(s)| ==> OnlyBlank(SplitLines(s)[k])
    decreases |s|
  {
    if s != [] {
      var i := FirstBreak(s);
      if i < |s| {
        var e := LineEnd(s, i);
        assert forall j :: 0 <= j < |s| - e ==> s[e..][j] == s[e + j];
        BlankLines(s[e..]);
        assert forall j :: 0 <= j < i ==> s[..i][j] == s[j] && !IsLineBreak(s[..i][j]);
        assert SplitLines(s) == [s[..i]] + SplitLines(s[e..]);
      } else {
        assert SplitLines(s) == [s];
      }
    }
  }

  lemma {:induction false} BlankSplitDoubleSpace(s: string)
    requires OnlyBlank(s)
    ensures forall k :: 0 <= k < |SplitDoubleSpace(s)| ==> OnlyBlank(SplitDoubleSpace(s)[k])
    decreases |s|
  {
    if |s| >= 2 {
      if s[0] == ' ' && s[1] == ' ' {
        BlankSlice(s, 2, |s|);
        BlankSplitDoubleSpace(s[2..]);
      } else {
        BlankSlice(s, 1, |s|);
        BlankSplitDoubleSpace(s[1..]);
        var rest := SplitDoubleSpace(s[1..]);
        BlankAppend([s[0]], rest[0]);
      }
    }
  }

  lemma {:induction false} BlankPhrases(lines: seq<string>)
    requires forall k :: 0 <= k < |lines| ==> OnlyBlank(lines[k])
    ensures forall k :: 0 <= k < |Phrases(lines)| ==> OnlyBlank(Phrases(lines)[k])
  {
    if lines != [] {
      var line := Strip(lines[0]);
      BlankStrip(lines[0]);
      var pieces := SplitDoubleSpace(line);
      BlankSplitDoubleSpace(line);
      BlankStripAll(pieces);
      BlankPhrases(lines[1..]);
      BlankAll(StripAll(pieces), Phrases(lines[1..]));
    }
  }

  lemma {:induction false} BlankStripAll(pieces: seq<string>)
    requires forall k :: 0 <= k < |pieces| ==> OnlyBlank(pieces[k])
    ensures forall k :: 0 <= k < |StripAll(pieces)| ==> OnlyBlank(StripAll(pieces)[k])
  {
    forall k | 0 <= k < |pieces| ensures OnlyBlank(StripAll(pieces)[k]) {
      BlankStrip(pieces[k]);
    }
  }

  lemma {:induction false} BlankAll(here: seq<string>, rest: seq<string>)
    requires forall k :: 0 <= k < |here| ==> OnlyBlank(here[k])
    requires forall k :: 0 <= k < |rest| ==> OnlyBlank(rest[k])
    ensures forall k :: 0 <= k < |here + rest| ==> OnlyBlank((here + rest)[k])
  {
    forall k | 0 <= k < |here + rest| ensures OnlyBlank((here + rest)[k]) {
      if k >= |here| {
        assert (here + rest)[k] == rest[k - |here|];
      }
    }
  }

  lemma {:induction false} BlankNonEmpty(parts: seq<string>)
    requires forall k :: 0 <= k < |parts| ==> OnlyBlank(parts[k])
    ensures forall k :: 0 <= k < |NonEmpty(parts)| ==> OnlyBlank(NonEmpty(parts)[k])
  {
    if parts != [] {
      BlankNonEmpty(parts[1..]);
      var head, rest := (if parts[0] == [] then [] else [parts[0]]), NonEmpty(parts[1..]);
      assert forall k :: |head| <= k < |head + rest| ==> (head + rest)[k] == rest[k - |head|];
    }
  }

  lemma {:induction false} BlankJoin(parts: seq<string>)
    requires forall k :: 0 <= k < |parts| ==> OnlyBlank(parts[k])
    ensures OnlyBlank(JoinWith(parts, " "))
  {
    if |parts| > 1 {
      BlankJoin(parts[1..]);
      BlankAppend(parts[0], " ");
      BlankAppend(parts[0] + " ", JoinWith(parts[1..], " "));
    }
  }

  /** Tidy text whose only whitespace is the plain space is its words joined by single spaces. */
  lemma {:induction false} TidyJoinWords(r: string)
    requires Tidy(r) && OnlyBlank(r)
    ensures r == JoinWith(Words(r), " ")
    decreases |r|
  {
    if |r| == 1 {
      assert r[1..] == [] && [r[0]] == r;
      assert Words(r) == [[r[0]]] + Words(r[1..]);
    } else if |r| > 1 {
      var c := r[0];
      if IsSpace(r[1]) {
        var t := r[2..];
        TidyAfterSpace(r);
        TidyJoinWords(t);
        WordsAfterSpace(r);
        var w := Words(t);
        assert ([[c]] + w)[1..] == w;
        assert r == [c] + " " + t;
      } else {
        var t := r[1..];
        TidyTail(r);
        TidyJoinWords(t);
        assert Words(r) == [[c] + Words(t)[0]] + Words(t)[1..];
        JoinGlueHead(c, Words(t), " ");
        assert r == [c] + t;
      }
    }
  }

  lemma {:induction false} TidyTail(r: string)
    requires Tidy(r) && OnlyBlank(r) && |r| > 1 && !IsSpace(r[1])
    ensures Tidy(r[1..]) && OnlyBlank(r[1..])
  {
    var t := r[1..];
    assert forall i :: 0 <= i < |t| ==> t[i] == r[i + 1];
  }

  /** After a word's first letter and one space, the rest is tidy again and starts a word. */
  lemma {:induction false} TidyAfterSpace(r: string)
    requires Tidy(r) && OnlyBlank(r) && |r| > 1 && IsSpace(r[1])
    ensures |r| > 2 && r[1] == ' ' && !IsSpace(r[2])
    ensures Tidy(r[2..]) && OnlyBlank(r[2..])
  {
    assert r[1] == ' ';
    assert !(r[1] == ' ' && r[2] == ' ');
    var t := r[2..];
    assert forall i :: 0 <= i < |t| ==> t[i] == r[i + 2];
  }

  lemma {:induction false} WordsAfterSpace(r: string)
    requires |r| > 2 && !IsSpace(r[0]) && IsSpace(r[1]) && !IsSpace(r[2])
    ensures Words(r) == [[r[0]]] + Words(r[2..]) && Words(r[2..]) != []
  {
    assert r[1..][1..] == r[2..];
    assert Words(r[1..]) == Words(r[2..]);
  }

  /** On plain text every whitespace character of the cleanup's result is a plain space. */
  lemma {:induction false} CleanOnlyBlank(text: string)
    requires PlainText(text)
    ensures OnlyBlank(CleanWhitespace(text))
  {
    var lines := SplitLines(text);
    BlankLines(text);
    BlankPhrases(lines);
    BlankNonEmpty(Phrases(lines));
    BlankJoin(NonEmpty(Phrases(lines)));
  }

  /**
   * On text whose whitespace is plain spaces and line boundaries, the cleanup gives exactly
   * the words joined by single spaces: every run of spaces and every line boundary between two
   * words becomes one ' '.
   */
  lemma {:induction false} CleanSpaced(text: string)
    requires PlainText(text)
    ensures CleanWhitespace(text) == JoinWith(Words(text), " ")
  {
    CleanOnlyBlank(text);
    TidyJoinWords(CleanWhitespace(text));
    CleanWords(text);
  }

  /** Two spaces between words become one. */
  lemma {:induction false} CleanDoubleSpace()
    ensures CleanWhitespace("a  b") == "a b"
  {
    var t := "a  b";
    assert t[1..][1..][1..] == "b";
    assert Words(t) == ["a", "b"];
    CleanTo(t, ["a", "b"], "a b");
  }

  /** A line boundary and the indentation after it become one space. */
  lemma {:induction false} CleanLineBreak()
    ensures CleanWhitespace("a\n b") == "a b"
  {
    var t := "a\n b";
    assert t[1..][1..][1..] == "b";
    assert Words(t) == ["a", "b"];
    CleanTo(t, ["a", "b"], "a b");
  }

  lemma {:induction false} CleanTo(t: string, w: seq<string>, r: string)
    requires PlainText(t) && Words(t) == w && JoinWith(w, " ") == r
    ensures CleanWhitespace(t) == r
  {
    CleanSpaced(t);
  }

  /**
   * `fetch_url`: `page` is the collaborator's answer for the URL, the text of the parsed
   * page without its script and style elements, or None when the request or the parse
   * raised; the error is caught and None returned.
   */
  function FetchUrl(page: Option<string>): (r: Option<string>)
    ensures r.Some? <==> page.Some?
    ensures r.Some? ==> Tidy(r.value) && Squeeze(r.value) == Squeeze(page.value)
  {
    match page
    case None => None
    case Some(text) => Some(CleanWhitespace(text))
  }

  /**
   * The dict `fetch_multiple` returns when the i-th call of `fetch_url` received
   * `answers[i]`: a later call for the same URL overwrites an earlier one.
   */
  function FetchedAll(urls: seq<string>, answers: seq<Option<string>>): (m: map<string, Option<string>>)
    requires |answers| == |urls|
    ensures forall u :: u in m <==> u in urls
  {
    if urls == [] then map[]
    else
      var n := |urls| - 1;
      var prev := FetchedAll(urls[..n], answers[..n]);
      assert forall u :: u in urls <==> u in urls[..n] || u == urls[n];
      prev[urls[n] := FetchUrl(answers[n])]
  }

  /** Each URL maps to the result of its last fetch. */
  lemma {:induction false} FetchedAllLast(urls: seq<string>, answers: seq<Option<string>>, i: nat)
    requires |answers| == |urls| && i < |urls|
    requires forall j :: i < j < |urls| ==> urls[j] != urls[i]
    ensures FetchedAll(urls, answers)[urls[i]] == FetchUrl(answers[i])
  {
    var n := |urls| - 1;
    var prev := FetchedAll(urls[..n], answers[..n]);
    assert FetchedAll(urls, answers) == prev[urls[n] := FetchUrl(answers[n])];
    if i < n {
      assert urls[..n][i] == urls[i] && answers[..n][i] == answers[i];
      FetchedAllLast(urls[..n], answers[..n], i);
      assert urls[n] != urls[i];
    }
  }

  /** `fetch_multiple`: fetches the URLs one after the other into a dict. */
  method FetchMultiple(urls: seq<string>, answers: seq<Option<string>>)
    returns (results: map<string, Option<string>>)
    requires |answers| == |urls|
    ensures results == FetchedAll(urls, answers)
  {
    results := map[];
    for i := 0 to |urls|
      invariant results == FetchedAll(urls[..i], answers[..i])
    {
      assert urls[..i + 1][..i] == urls[..i] && answers[..i + 1][..i] == answers[..i];
      results := results[urls[i] := FetchUrl(answers[i])];
    }
    assert urls[..|urls|] == urls && answers[..|answers|] == answers;
  }
}
