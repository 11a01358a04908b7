/** The Python string operations the extractor relies on (`str.isspace`,
    `str.lower`, `in`, `str.strip`, `str.split`), over Dafny strings. */
module Text {
  import opened Wrappers

  /** Python's `str.isspace` for one character: the characters that a bare
      `str.strip()` removes. */
  predicate IsSpace(c: char) {
    c == ' ' || ('\t' <= c <= '\r') || ('\U{1C}' <= c <= '\U{1F}')
    || c == '\U{85}' || c == '\U{A0}' || c == '\U{1680}'
    || ('\U{2000}' <= c <= '\U{200A}') || c == '\U{2028}' || c == '\U{2029}'
    || c == '\U{202F}' || c == '\U{205F}' || c == '\U{3000}'
  }

  function LowerChar(c: char): char {
    if 'A' <= c <= 'Z' then (c as int + 32) as char else c
  }

  /** `str.lower()`, restricted to the ASCII letters. */
  function Lower(s: string): string {
    seq(|s|, i requires 0 <= i < |s| => LowerChar(s[i]))
  }

  /** `t` occurs in `s` starting at index `i`. */
  predicate OccursAt(s: string, t: string, i: nat) {
    i + |t| <= |s| && s[i..i + |t|] == t
  }

  /** The first index at or after `i` where `t` occurs in `s`. */
  function IndexFrom(s: string, t: string, i: nat): (r: Option<nat>)
    ensures r.Some? ==> i <= r.value && r.value + |t| <= |s|
    decreases |s| - i
  {
    if i + |t| > |s| then None
    else if OccursAt(s, t, i) then Some(i)
    else IndexFrom(s, t, i + 1)
  }

  /** `str.find`: the index of the first occurrence of `t` in `s`, None for -1. */
  function IndexOf(s: string, t: string): (r: Option<nat>)
    ensures r.Some? ==> r.value + |t| <= |s|
  {
    IndexFrom(s, t, 0)
  }

  /** `IndexFrom` finds the first occurrence from `i` on, and None means
      there is none. */
  lemma {:induction false} IndexFromFirst(s: string, t: string, i: nat)
    ensures IndexFrom(s, t, i).Some? ==> OccursAt(s, t, IndexFrom(s, t, i).value)
    ensures IndexFrom(s, t, i).Some? ==> forall j: nat :: i <= j < IndexFrom(s, t, i).value ==> !OccursAt(s, t, j)
    ensures IndexFrom(s, t, i).None? ==> forall j: nat :: i <= j ==> !OccursAt(s, t, j)
    decreases |s| - i
  {
    if i + |t| <= |s| && !OccursAt(s, t, i) {
      IndexFromFirst(s, t, i + 1);
    }
  }

  /** `IndexOf` finds the first occurrence, and None means there is none. */
  lemma IndexOfFirst(s: string, t: string)
    ensures IndexOf(s, t).Some? ==> OccursAt(s, t, IndexOf(s, t).value)
    ensures IndexOf(s, t).Some? ==> forall j: nat :: j < IndexOf(s, t).value ==> !OccursAt(s, t, j)
    ensures IndexOf(s, t).None? ==> forall j: nat :: !OccursAt(s, t, j)
  {
    IndexFromFirst(s, t, 0);
  }

  /** Python's `t in s` for strings. */
  predicate Contains(s: string, t: string) {
    IndexOf(s, t).Some?
  }

  /** An occurrence anywhere makes `t in s` true. */
  lemma OccursThenContains(s: string, t: string, i: nat)
    requires OccursAt(s, t, i)
    ensures Contains(s, t)
  {
    IndexOfFirst(s, t);
  }

  /** Lower-casing works character by character. */
  lemma LowerAppend(a: string, b: string)
    ensures Lower(a + b) == Lower(a) + Lower(b)
  {
  }

  /** The first index at or after `i` that does not hold whitespace, or |s|. */
  function SkipSpaces(s: string, i: nat): (k: nat)
    requires i <= |s|
    ensures i <= k <= |s|
    ensures forall j :: i <= j < k ==> IsSpace(s[j])
    ensures k == |s| || !IsSpace(s[k])
    decreases |s| - i
  {
    if i < |s| && IsSpace(s[i]) then SkipSpaces(s, i + 1) else i
  }

  /** The least `k <= j` such that `s[k..j]` is all whitespace. */
  function BackSpaces(s: string, j: nat): (k: nat)
    requires j <= |s|
    ensures k <= j
    ensures forall i :: k <= i < j ==> IsSpace(s[i])
    ensures k == 0 || !IsSpace(s[k - 1])
    decreases j
  {
    if j > 0 && IsSpace(s[j - 1]) then BackSpaces(s, j - 1) else j
  }

  /** Where the text kept by `str.strip()` starts. */
  function StripStart(s: string): (lo: nat)
    ensures lo <= |s|
    ensures forall i :: 0 <= i < lo ==> IsSpace(s[i])
  {
    SkipSpaces(s, 0)
  }

  /** Where the text kept by `str.strip()` ends. */
  function StripEnd(s: string): (hi: nat)
    ensures StripStart(s) <= hi <= |s|
    ensures forall i :: hi <= i < |s| ==> IsSpace(s[i])
  {
    var lo := StripStart(s);
    if lo == |s| then lo else BackSpaces(s, |s|)
  }

  /** `str.strip()`: what lies between the leading and the trailing whitespace.
      The result neither starts nor ends with whitespace, and it is empty
      exactly when `s` is all whitespace. */
  function Strip(s: string): (r: string)
    ensures r == [] || (!IsSpace(r[0]) && !IsSpace(r[|r| - 1]))
    ensures r == [] <==> forall i :: 0 <= i < |s| ==> IsSpace(s[i])
  {
    s[StripStart(s)..StripEnd(s)]
  }

  /** Whitespace on both sides of a text that neither starts nor ends with
      whitespace is exactly what `strip` removes. */
  lemma StripPadded(pre: string, core: string, post: string)
    requires forall i :: 0 <= i < |pre| ==> IsSpace(pre[i])
    requires forall i :: 0 <= i < |post| ==> IsSpace(post[i])
    requires core != [] && !IsSpace(core[0]) && !IsSpace(core[|core| - 1])
    ensures Strip(pre + (core + post)) == core
  {
    var s := pre + (core + post);
    var a, b := |pre|, |pre| + |core|;
    assert s[a] == core[0];
    assert s[b - 1] == core[|core| - 1];
    forall i | 0 <= i < a ensures IsSpace(s[i]) {
      assert s[i] == pre[i];
    }
    forall i | b <= i < |s| ensures IsSpace(s[i]) {
      assert s[i] == post[i - b];
    }
    assert StripStart(s) == a;
    assert StripEnd(s) == b;
    assert s[a..b] == core;
  }

  /** A text ending in a visible character loses only its leading
      whitespace. */
  lemma StripKeepsEnd(a: string)
    requires a != [] && !IsSpace(a[|a| - 1])
    ensures StripEnd(a) == |a|
  {
    assert StripStart(a) != |a|;
  }

  /** A text starting with a visible character loses only its trailing
      whitespace. */
  lemma StripKeepsStart(b: string)
    requires b != [] && !IsSpace(b[0])
    ensures StripStart(b) == 0
  {
  }

  /** Stripping a text whose middle is whitespace between two non-blank
      ends strips each side on its own and keeps the middle. */
  lemma StripAround(a: string, g: string, b: string)
    requires a != [] && !IsSpace(a[|a| - 1])
    requires b != [] && !IsSpace(b[0])
    requires forall i :: 0 <= i < |g| ==> IsSpace(g[i])
    ensures Strip(a + (g + b)) == Strip(a) + (g + Strip(b))
  {
    StripKeepsEnd(a);
    StripKeepsStart(b);
    var lo, hi := StripStart(a), StripEnd(b);
    var sa, sb := Strip(a), Strip(b);
    var pre, post := a[..lo], b[hi..];
    assert a == pre + sa by {
      SplitAt(a, lo);
    }
    assert b == sb + post by {
      SplitAt(b, hi);
    }
    forall i | 0 <= i < |pre| ensures IsSpace(pre[i]) {
      assert pre[i] == a[i];
    }
    forall i | 0 <= i < |post| ensures IsSpace(post[i]) {
      assert post[i] == b[hi + i];
    }
    var core := sa + (g + sb);
    assert sa != [] && sb != [];
    assert core[0] == sa[0] && core[|core| - 1] == sb[|sb| - 1];
    Regroup(pre, sa, g, sb, post);
    StripPadded(pre, core, post);
  }

  /** `s.split(sep)[1]`: the text after the first `sep` up to the next one (or to
      the end), None where Python raises IndexError because `sep` is absent. */
  function SecondField(s: string, sep: string): (r: Option<string>)
    requires sep != []
    ensures r.None? <==> !Contains(s, sep)
  {
    match IndexOf(s, sep)
    case None => None
    case Some(i) =>
      var rest := s[i + |sep|..];
      match IndexOf(rest, sep)
      case None => Some(rest)
      case Some(j) => Some(rest[..j])
  }

  /** The field `split` yields never holds the separator. */
  lemma SecondFieldHasNoSeparator(s: string, sep: string)
    requires sep != [] && SecondField(s, sep).Some?
    ensures !Contains(SecondField(s, sep).value, sep)
  {
    var i := IndexOf(s, sep).value;
    var rest := s[i + |sep|..];
    IndexOfFirst(rest, sep);
    match IndexOf(rest, sep)
    case None =>
    case Some(j) =>
      var field := rest[..j];
      IndexOfFirst(field, sep);
      forall k: nat | OccursAt(field, sep, k) ensures false {
        assert rest[k..k + |sep|] == field[k..k + |sep|];
        assert OccursAt(rest, sep, k);
      }
  }

  /** No separator starts inside `x`, not even one that would run on past
      its end: `x` holds no separator, and no proper suffix of `x` is a
      proper prefix of `sep`. */
  predicate StartsNoSeparator(x: string, sep: string) {
    !Contains(x, sep)
    && forall k :: 0 < k < |sep| && k <= |x| ==> x[|x| - k..] != sep[..k]
  }

  /** When no separator starts before one, the first occurrence is that
      one. */
  lemma {:induction false} FirstOccurrence(x: string, sep: string, y: string)
    requires sep != [] && StartsNoSeparator(x, sep)
    ensures IndexOf(x + (sep + y), sep) == Some(|x|)
  {
    var s := x + (sep + y);
    IndexOfFirst(s, sep);
    IndexOfFirst(x, sep);
    assert s[|x|..|x| + |sep|] == sep;
    assert OccursAt(s, sep, |x|);
    forall j: nat | j < |x| ensures !OccursAt(s, sep, j) {
      if j + |sep| <= |x| {
        assert !OccursAt(x, sep, j);
        assert s[j..j + |sep|] == x[j..j + |sep|];
      } else {
        var k := |x| - j;
        assert x[|x| - k..] != sep[..k];
        assert s[j..j + |sep|][..k] == s[j..|x|];
        assert s[j..|x|] == x[j..];
      }
    }
  }

  /** The field between the first two separators of `a`, sep, `b`, sep, `c`
      is `b`, provided no separator starts inside `a` or `b`. */
  lemma {:induction false} SecondFieldBetween(a: string, sep: string, b: string, c: string)
    requires sep != [] && StartsNoSeparator(a, sep) && StartsNoSeparator(b, sep)
    ensures SecondField(a + (sep + (b + (sep + c))), sep) == Some(b)
  {
    var rest := b + (sep + c);
    var s := a + (sep + rest);
    FirstOccurrence(a, sep, rest);
    FirstOccurrence(b, sep, c);
    assert s[IndexOf(s, sep).value + |sep|..] == rest;
    assert rest[..IndexOf(rest, sep).value] == b;
  }
}
