/** `clean_document` and the prompt template of `scrape_via_prompt`. */
module Clean {
  import opened Wrappers
  import opened Text

  /** DOC_MAX_LENGTH: cleaned texts at least this long are cut down. */
  const DocMaxLength := 3000
  /** How many characters of the end of an overlong text are kept. */
  const TailLength := 500
  /** How many characters of the start of an overlong text are kept. */
  const HeadLength := DocMaxLength - TailLength

  const Fence := "```"

  /** The request between the document block and the schema block. */
  const Instruction :=
    "\n\nFor the given text, can you provide a JSON representation that strictly follows this schema:\n\n"

  /** No two neighbouring characters of `s` are both `c`. */
  predicate NoDouble(s: string, c: char) {
    forall i :: 0 <= i < |s| - 1 ==> !(s[i] == c && s[i + 1] == c)
  }

  /** The characters of `s` that are not whitespace, in order. */
  function Visible(s: string): string
    decreases |s|
  {
    if s == [] then [] else (if IsSpace(s[0]) then [] else [s[0]]) + Visible(s[1..])
  }

  /** Drops the run of characters from `cls` at the start of `s`. */
  function SkipRun(s: string, cls: set<char>): (r: string)
    ensures |r| <= |s| && r == s[|s| - |r|..]
    ensures r == [] || r[0] !in cls
    ensures forall i :: 0 <= i < |s| - |r| ==> s[i] in cls
    decreases |s|
  {
    if s != [] && s[0] in cls then SkipRun(s[1..], cls) else s
  }

  /** `re.sub("[cls]+", rep, s)`: every maximal run of characters from `cls`
      becomes a single `rep`. The first character of the result tells whether
      `s` starts with such a run. */
  function Collapse(s: string, cls: set<char>, rep: char): (r: string)
    ensures |r| <= |s|
    ensures r == [] <==> s == []
    ensures r != [] ==> r[0] == (if s[0] in cls then rep else s[0])
    decreases |s|
  {
    if s == [] then []
    else if s[0] in cls then [rep] + Collapse(SkipRun(s[1..], cls), cls, rep)
    else [s[0]] + Collapse(s[1..], cls, rep)
  }

  /** The two substitutions of `clean_document`: newline runs become one
      newline, then space and tab runs one space. */
  function Squeeze(s: string): string {
    Collapse(Collapse(s, {'\n'}, '\n'), {'\t', ' '}, ' ')
  }

  /** The text `clean_document` works on: the substitutions, then the ends
      stripped. */
  function Cleaned(pageText: string): string {
    Strip(Squeeze(pageText))
  }

  /** `clean_document`: the cleaned text, or, from DocMaxLength characters
      on, its head and its tail joined by one space. */
  function CleanDocument(pageText: string): string {
    var cleaned := Cleaned(pageText);
    if |cleaned| < DocMaxLength then cleaned
    else cleaned[..HeadLength] + " " + cleaned[|cleaned| - TailLength..]
  }

  /** The prompt sent for one document; `schema` is the text the schema
      renders to. */
  function Prompt(pageText: string, schema: string): string {
    Fence + (CleanDocument(pageText) + (Fence + (Instruction + (Fence + (schema + Fence)))))
  }

  // ---------------------------------------------------------------------
  // Collapsing runs

  /** After collapsing, every character of `cls` left is `rep`, and no two
      characters of `cls` stand next to each other. */
  lemma {:induction false} CollapseShape(s: string, cls: set<char>, rep: char)
    ensures forall i :: 0 <= i < |Collapse(s, cls, rep)| && Collapse(s, cls, rep)[i] in cls ==>
      Collapse(s, cls, rep)[i] == rep
    ensures forall i :: 0 <= i < |Collapse(s, cls, rep)| - 1 ==>
      !(Collapse(s, cls, rep)[i] in cls && Collapse(s, cls, rep)[i + 1] in cls)
    decreases |s|
  {
    if s != [] {
      var r := Collapse(s, cls, rep);
      var rest := if s[0] in cls then SkipRun(s[1..], cls) else s[1..];
      CollapseShape(rest, cls, rep);
      var t := Collapse(rest, cls, rep);
      assert r == [r[0]] + t;
      forall i | 1 <= i < |r| ensures r[i] == t[i - 1] {
      }
    }
  }

  /** A character outside the collapsed class never becomes doubled. */
  lemma {:induction false} CollapseKeepsNoDouble(s: string, cls: set<char>, rep: char, c: char)
    requires c !in cls && rep in cls && NoDouble(s, c)
    ensures NoDouble(Collapse(s, cls, rep), c)
    decreases |s|
  {
    if s == [] {
    } else if s[0] in cls {
      var rest := SkipRun(s[1..], cls);
      assert NoDouble(rest, c) by {
        forall i | 0 <= i < |rest| - 1 ensures !(rest[i] == c && rest[i + 1] == c) {
          var k := |s| - |rest| + i;
          assert rest[i] == s[k] && rest[i + 1] == s[k + 1];
        }
      }
      CollapseKeepsNoDouble(rest, cls, rep, c);
    } else {
      assert NoDouble(s[1..], c) by {
        forall i | 0 <= i < |s| - 2 ensures !(s[1..][i] == c && s[1..][i + 1] == c) {
          assert s[1..][i] == s[i + 1] && s[1..][i + 1] == s[i + 2];
        }
      }
      CollapseKeepsNoDouble(s[1..], cls, rep, c);
      var t := Collapse(s[1..], cls, rep);
      assert Collapse(s, cls, rep) == [s[0]] + t;
    }
  }

  lemma {:induction false} VisibleOfSpaces(s: string, lo: nat, hi: nat)
    requires lo <= hi <= |s|
    requires forall i :: lo <= i < hi ==> IsSpace(s[i])
    ensures Visible(s[lo..hi]) == []
    decreases hi - lo
  {
    if lo < hi {
      assert s[lo..hi][1..] == s[lo + 1..hi];
      VisibleOfSpaces(s, lo + 1, hi);
    }
  }

  /** Collapsing whitespace runs into one whitespace character keeps every
      other character, in order. */
  lemma {:induction false} CollapseKeepsVisible(s: string, cls: set<char>, rep: char)
    requires forall c :: c in cls ==> IsSpace(c)
    requires IsSpace(rep)
    ensures Visible(Collapse(s, cls, rep)) == Visible(s)
    decreases |s|
  {
    if s != [] {
      var t := Collapse(s, cls, rep);
      if s[0] in cls {
        var rest := SkipRun(s[1..], cls);
        var k := |s| - |rest|;
        assert rest == s[k..];
        forall i | 0 <= i < k ensures IsSpace(s[i]) {
          if i > 0 { assert s[i] == s[1..][i - 1]; }
        }
        VisibleDropFront(s, k);
        CollapseKeepsVisible(rest, cls, rep);
        assert t[1..] == Collapse(rest, cls, rep);
      } else {
        CollapseKeepsVisible(s[1..], cls, rep);
        assert t[1..] == Collapse(s[1..], cls, rep);
      }
    }
  }

  /** A text already free of runs is a fixed point of collapsing. */
  lemma {:induction false} CollapseFixes(s: string, cls: set<char>, rep: char)
    requires forall i :: 0 <= i < |s| && s[i] in cls ==> s[i] == rep
    requires forall i :: 0 <= i < |s| - 1 ==> !(s[i] in cls && s[i + 1] in cls)
    ensures Collapse(s, cls, rep) == s
    decreases |s|
  {
    if s != [] {
      if s[0] in cls {
        assert SkipRun(s[1..], cls) == s[1..];
      }
      CollapseFixes(s[1..], cls, rep);
      assert s == [s[0]] + s[1..];
    }
  }

  /** `re.sub` with a run pattern is idempotent. */
  lemma CollapseIdempotent(s: string, cls: set<char>, rep: char)
    ensures Collapse(Collapse(s, cls, rep), cls, rep) == Collapse(s, cls, rep)
  {
    CollapseShape(s, cls, rep);
    CollapseFixes(Collapse(s, cls, rep), cls, rep);
  }

  /** Skipping the run at the start of `a + b` skips it in `a`, unless the
      run covers all of `a` and goes on into `b`. */
  lemma {:induction false} SkipRunAppend(a: string, b: string, cls: set<char>)
    requires b == [] || b[0] !in cls || SkipRun(a, cls) != []
    ensures SkipRun(a + b, cls) == SkipRun(a, cls) + b
    decreases |a|
  {
    if a == [] {
      assert a + b == b;
    } else if a[0] in cls {
      assert (a + b)[1..] == a[1..] + b;
      SkipRunAppend(a[1..], b, cls);
    }
  }

  /** Two pieces collapse on their own when no run straddles them: the first
      ends, or the second starts, outside the class. */
  lemma {:induction false} CollapseAppend(u: string, v: string, cls: set<char>, rep: char)
    requires u == [] || u[|u| - 1] !in cls || v == [] || v[0] !in cls
    ensures Collapse(u + v, cls, rep) == Collapse(u, cls, rep) + Collapse(v, cls, rep)
    decreases |u|, 1
  {
    if u == [] {
      assert u + v == v;
      assert Collapse(u, cls, rep) == [];
    } else if u[0] in cls {
      CollapseAppendRun(u, v, cls, rep);
    } else {
      assert (u + v)[1..] == u[1..] + v;
      CollapseAppend(u[1..], v, cls, rep);
      calc {
        Collapse(u + v, cls, rep);
        [u[0]] + Collapse(u[1..] + v, cls, rep);
        [u[0]] + (Collapse(u[1..], cls, rep) + Collapse(v, cls, rep));
        { AppendAssoc([u[0]], Collapse(u[1..], cls, rep), Collapse(v, cls, rep)); }
        ([u[0]] + Collapse(u[1..], cls, rep)) + Collapse(v, cls, rep);
        Collapse(u, cls, rep) + Collapse(v, cls, rep);
      }
    }
  }

  /** CollapseAppend when `u` starts with a run. */
  lemma {:induction false} CollapseAppendRun(u: string, v: string, cls: set<char>, rep: char)
    requires u != [] && u[0] in cls
    requires u[|u| - 1] !in cls || v == [] || v[0] !in cls
    ensures Collapse(u + v, cls, rep) == Collapse(u, cls, rep) + Collapse(v, cls, rep)
    decreases |u|, 0
  {
    var rest := SkipRun(u[1..], cls);
    assert SkipRun((u + v)[1..], cls) == rest + v by {
      assert (u + v)[1..] == u[1..] + v;
      assert rest == [] ==> u[|u| - 1] in cls by {
        assert |u| > 1 ==> u[|u| - 1] == u[1..][|u| - 2];
      }
      SkipRunAppend(u[1..], v, cls);
    }
    assert rest != [] ==> rest[|rest| - 1] == u[|u| - 1];
    CollapseAppend(rest, v, cls, rep);
    calc {
      Collapse(u + v, cls, rep);
      [rep] + Collapse(rest + v, cls, rep);
      [rep] + (Collapse(rest, cls, rep) + Collapse(v, cls, rep));
      { AppendAssoc([rep], Collapse(rest, cls, rep), Collapse(v, cls, rep)); }
      ([rep] + Collapse(rest, cls, rep)) + Collapse(v, cls, rep);
      Collapse(u, cls, rep) + Collapse(v, cls, rep);
    }
  }

  /** A run on its own collapses to one replacement character. */
  lemma CollapseRun(r: string, cls: set<char>, rep: char)
    requires r != [] && forall i :: 0 <= i < |r| ==> r[i] in cls
    ensures Collapse(r, cls, rep) == [rep]
  {
  }

  /** A whole run between two characters outside the class becomes exactly
      one replacement character, in its place; the text around it collapses
      on its own. */
  lemma CollapseReplacesRun(x: string, r: string, y: string, cls: set<char>, rep: char)
    requires r != [] && forall i :: 0 <= i < |r| ==> r[i] in cls
    requires x == [] || x[|x| - 1] !in cls
    requires y == [] || y[0] !in cls
    ensures Collapse(x + (r + y), cls, rep) == Collapse(x, cls, rep) + ([rep] + Collapse(y, cls, rep))
  {
    CollapseAppend(x, r + y, cls, rep);
    CollapseAppend(r, y, cls, rep);
    CollapseRun(r, cls, rep);
  }

  /** A text ending outside the class keeps its last character. */
  lemma CollapseKeepsLast(s: string, cls: set<char>, rep: char)
    requires s != [] && s[|s| - 1] !in cls
    ensures var c := Collapse(s, cls, rep); c != [] && c[|c| - 1] == s[|s| - 1]
  {
    var last := [s[|s| - 1]];
    assert s == s[..|s| - 1] + last;
    CollapseAppend(s[..|s| - 1], last, cls, rep);
    assert last[1..] == [];
  }

  /** Collapsing whitespace with a whitespace replacement gives whitespace. */
  lemma {:induction false} CollapseKeepsSpaces(s: string, cls: set<char>, rep: char)
    requires IsSpace(rep) && forall i :: 0 <= i < |s| ==> IsSpace(s[i])
    ensures var c := Collapse(s, cls, rep); forall i :: 0 <= i < |c| ==> IsSpace(c[i])
    decreases |s|
  {
    if s != [] {
      var c := Collapse(s, cls, rep);
      if s[0] in cls {
        var rest := SkipRun(s[1..], cls);
        assert forall i :: 0 <= i < |rest| ==> rest[i] == s[|s| - |rest| + i];
        CollapseKeepsSpaces(rest, cls, rep);
        assert c == [rep] + Collapse(rest, cls, rep);
      } else {
        CollapseKeepsSpaces(s[1..], cls, rep);
        assert c == [s[0]] + Collapse(s[1..], cls, rep);
      }
    }
  }

  // ---------------------------------------------------------------------
  // Stripping

  /** Whitespace at the front does not count. */
  lemma {:induction false} VisibleDropFront(s: string, lo: nat)
    requires lo <= |s|
    requires forall i :: 0 <= i < lo ==> IsSpace(s[i])
    ensures Visible(s[lo..]) == Visible(s)
    decreases lo
  {
    if lo > 0 {
      assert s[1..][lo - 1..] == s[lo..];
      VisibleDropFront(s[1..], lo - 1);
    }
  }

  /** Whitespace at the back does not count. */
  lemma {:induction false} VisibleDropBack(s: string, hi: nat)
    requires hi <= |s|
    requires forall i :: hi <= i < |s| ==> IsSpace(s[i])
    ensures Visible(s[..hi]) == Visible(s)
    decreases |s|
  {
    if hi == 0 {
      VisibleOfSpaces(s, 0, |s|);
      assert s[0..|s|] == s;
    } else {
      assert s[..hi][0] == s[0];
      assert s[..hi][1..] == s[1..][..hi - 1];
      VisibleDropBack(s[1..], hi - 1);
    }
  }

  lemma StripKeepsVisible(s: string)
    ensures Visible(Strip(s)) == Visible(s)
  {
    var lo, hi := StripStart(s), StripEnd(s);
    var t := s[lo..];
    VisibleDropFront(s, lo);
    assert t[..hi - lo] == Strip(s);
    VisibleDropBack(t, hi - lo);
  }

  // ---------------------------------------------------------------------
  // What clean_document promises

  /** The cleaned text neither starts nor ends with whitespace, holds no tab,
      no two neighbouring spaces and no two neighbouring newlines. */
  lemma CleanedShape(pageText: string)
    ensures var c := Cleaned(pageText);
      (c == [] || (!IsSpace(c[0]) && !IsSpace(c[|c| - 1])))
      && '\t' !in c && NoDouble(c, ' ') && NoDouble(c, '\n')
  {
    var lines := Collapse(pageText, {'\n'}, '\n');
    CollapseShape(pageText, {'\n'}, '\n');
    assert NoDouble(lines, '\n');
    var blanks := Collapse(lines, {'\t', ' '}, ' ');
    CollapseShape(lines, {'\t', ' '}, ' ');
    CollapseKeepsNoDouble(lines, {'\t', ' '}, ' ', '\n');
    assert '\t' !in blanks;
    assert NoDouble(blanks, ' ');
    SliceKeepsShape(blanks, StripStart(blanks), StripEnd(blanks));
  }

  lemma SliceKeepsShape(s: string, lo: nat, hi: nat)
    requires lo <= hi <= |s|
    requires '\t' !in s && NoDouble(s, ' ') && NoDouble(s, '\n')
    ensures '\t' !in s[lo..hi] && NoDouble(s[lo..hi], ' ') && NoDouble(s[lo..hi], '\n')
  {
    var c := s[lo..hi];
    forall i | 0 <= i < |c| - 1 ensures !(c[i] == ' ' && c[i + 1] == ' ') && !(c[i] == '\n' && c[i + 1] == '\n') {
      assert c[i] == s[lo + i] && c[i + 1] == s[lo + i + 1];
    }
  }

  /** Cleaning changes whitespace only: the other characters survive, in order. */
  lemma CleanedKeepsVisible(pageText: string)
    ensures Visible(Cleaned(pageText)) == Visible(pageText)
  {
    var lines := Collapse(pageText, {'\n'}, '\n');
    CollapseKeepsVisible(pageText, {'\n'}, '\n');
    var blanks := Collapse(lines, {'\t', ' '}, ' ');
    CollapseKeepsVisible(lines, {'\t', ' '}, ' ');
    StripKeepsVisible(blanks);
  }

  /** Cleaning a cleaned text changes nothing. */
  lemma CleanedIdempotent(pageText: string)
    ensures Cleaned(Cleaned(pageText)) == Cleaned(pageText)
  {
    var c := Cleaned(pageText);
    CleanedShape(pageText);
    CollapseFixes(c, {'\n'}, '\n');
    CollapseFixes(c, {'\t', ' '}, ' ');
    assert StripStart(c) == 0 && StripEnd(c) == |c|;
  }

  /** Whitespace between two visible characters stays whitespace: each side
      is cleaned on its own, and the whitespace between them becomes a
      non-empty run of whitespace (one newline or one space for a plain run
      of either). */
  lemma CleanedKeepsSeparation(x: string, w: string, y: string)
    requires x != [] && !IsSpace(x[|x| - 1])
    requires y != [] && !IsSpace(y[0])
    requires w != [] && forall i :: 0 <= i < |w| ==> IsSpace(w[i])
    ensures var g := Squeeze(w);
      Cleaned(x + (w + y)) == Cleaned(x) + (g + Cleaned(y))
      && g != [] && forall i :: 0 <= i < |g| ==> IsSpace(g[i])
  {
    SqueezeAround(x, w, y);
    StripAround(Squeeze(x), Squeeze(w), Squeeze(y));
  }

  /** The substitutions work on each side of a whitespace middle on its own;
      the visible ends stay. */
  lemma SqueezeAround(x: string, w: string, y: string)
    requires x != [] && !IsSpace(x[|x| - 1])
    requires y != [] && !IsSpace(y[0])
    requires forall i :: 0 <= i < |w| ==> IsSpace(w[i])
    ensures Squeeze(x + (w + y)) == Squeeze(x) + (Squeeze(w) + Squeeze(y))
    ensures var sx, sy := Squeeze(x), Squeeze(y);
      sx != [] && sx[|sx| - 1] == x[|x| - 1] && sy != [] && sy[0] == y[0]
    ensures forall i :: 0 <= i < |Squeeze(w)| ==> IsSpace(Squeeze(w)[i])
  {
    var x1, w1, y1 := Collapse(x, {'\n'}, '\n'), Collapse(w, {'\n'}, '\n'), Collapse(y, {'\n'}, '\n');
    assert Collapse(x + (w + y), {'\n'}, '\n') == x1 + (w1 + y1)
      && x1 != [] && x1[|x1| - 1] == x[|x| - 1] && y1 != [] && y1[0] == y[0]
      && forall i :: 0 <= i < |w1| ==> IsSpace(w1[i])
    by {
      CollapseAround(x, w, y, {'\n'}, '\n');
      CollapseKeepsSpaces(w, {'\n'}, '\n');
    }
    CollapseAround(x1, w1, y1, {'\t', ' '}, ' ');
    CollapseKeepsSpaces(w1, {'\t', ' '}, ' ');
  }

  /** Collapsing a text around a middle piece, when the pieces on either
      side end and start outside the class, collapses the three on their
      own; the outer ends stay. */
  lemma CollapseAround(x: string, w: string, y: string, cls: set<char>, rep: char)
    requires x != [] && x[|x| - 1] !in cls
    requires y != [] && y[0] !in cls
    ensures Collapse(x + (w + y), cls, rep) == Collapse(x, cls, rep) + (Collapse(w, cls, rep) + Collapse(y, cls, rep))
    ensures var cx, cy := Collapse(x, cls, rep), Collapse(y, cls, rep);
      cx != [] && cx[|cx| - 1] == x[|x| - 1] && cy != [] && cy[0] == y[0]
  {
    CollapseAppend(x, w + y, cls, rep);
    CollapseAppend(w, y, cls, rep);
    CollapseKeepsLast(x, cls, rep);
  }

  /** Short texts come back cleaned and otherwise unchanged; from
      DocMaxLength characters on (so also at exactly DocMaxLength, the test
      being a strict less-than) the result is the first HeadLength
      characters, one space and the last TailLength characters: 3001 in all. */
  lemma CleanDocumentExcerpt(pageText: string)
    ensures var c := Cleaned(pageText); var r := CleanDocument(pageText);
      (|c| < DocMaxLength ==> r == c)
      && (|c| >= DocMaxLength ==>
            |r| == DocMaxLength + 1
            && r[..HeadLength] == c[..HeadLength]
            && r[HeadLength] == ' '
            && r[HeadLength + 1..] == c[|c| - TailLength..])
  {
  }

  /** The result never exceeds DocMaxLength + 1 characters; it is shorter than
      DocMaxLength exactly when the cleaned text is. */
  lemma CleanDocumentLength(pageText: string)
    ensures |CleanDocument(pageText)| <= DocMaxLength + 1
    ensures |CleanDocument(pageText)| < DocMaxLength <==> |Cleaned(pageText)| < DocMaxLength
  {
  }

  /** The prompt's first fenced block is the cleaned document, as long as the
      document holds no fence and does not end in a backtick. */
  lemma PromptCarriesDocument(pageText: string, schema: string)
    requires !Contains(CleanDocument(pageText), Fence)
    requires CleanDocument(pageText) == []
             || CleanDocument(pageText)[|CleanDocument(pageText)| - 1] != '`'
    ensures SecondField(Prompt(pageText, schema), Fence) == Some(CleanDocument(pageText))
  {
    var doc := CleanDocument(pageText);
    var tail := Instruction + (Fence + (schema + Fence));
    assert Prompt(pageText, schema) == [] + (Fence + (doc + (Fence + tail)));
    FenceStartsAfter([]);
    FenceStartsAfter(doc);
    SecondFieldBetween([], Fence, doc, tail);
  }

  /** A text that holds no fence and does not end in a backtick starts no
      fence. */
  lemma FenceStartsAfter(x: string)
    requires !Contains(x, Fence) && (x == [] || x[|x| - 1] != '`')
    ensures StartsNoSeparator(x, Fence)
  {
    forall k | 0 < k < |Fence| && k <= |x| ensures x[|x| - k..] != Fence[..k] {
      assert x[|x| - k..][k - 1] == x[|x| - 1];
    }
  }
}
