/**
 * The two Python string operations the token payload relies on:
 * `" ".join(words)` and `s.split()` with no separator, which splits on runs of
 * whitespace and drops empty pieces.
 */
module PyStr {

  /** The characters `str.split()` treats as whitespace. */
  predicate IsSpace(c: char)
  {
    || '\t' <= c <= '\r'
    || '\U{001C}' <= c <= ' '
    || c == '\U{0085}' || c == '\U{00A0}' || c == '\U{1680}'
    || '\U{2000}' <= c <= '\U{200A}'
    || c == '\U{2028}' || c == '\U{2029}' || c == '\U{202F}' || c == '\U{205F}' || c == '\U{3000}'
  }

  /** A piece `split()` can return: non-empty and free of whitespace. */
  predicate IsWord(w: string)
  {
    w != [] && forall i :: 0 <= i < |w| ==> !IsSpace(w[i])
  }

  /** `" ".join(words)`. */
  function Join(words: seq<string>): (s: string)
    ensures words == [] ==> s == []
    ensures |words| == 1 ==> s == words[0]
  {
    if words == [] then []
    else if |words| == 1 then words[0]
    else words[0] + " " + Join(words[1..])
  }

  /** `s.lstrip()`: drops leading whitespace. */
  function DropSpaces(s: string): (r: string)
    ensures |r| <= |s| && r == s[|s| - |r|..]
    ensures r == [] || !IsSpace(r[0])
    ensures forall i :: 0 <= i < |s| - |r| ==> IsSpace(s[i])
  {
    if s != [] && IsSpace(s[0]) then DropSpaces(s[1..]) else s
  }

  /** The length of the run of non-whitespace characters that starts `s`. */
  function WordLength(s: string): (n: nat)
    ensures n <= |s|
    ensures forall i :: 0 <= i < n ==> !IsSpace(s[i])
    ensures n < |s| ==> IsSpace(s[n])
  {
    if s != [] && !IsSpace(s[0]) then 1 + WordLength(s[1..]) else 0
  }

  /** The words written one after another, with nothing between them. */
  function Concat(words: seq<string>): string
  {
    if words == [] then [] else words[0] + Concat(words[1..])
  }

  /** `s` with every whitespace character removed. */
  function RemoveSpaces(s: string): (r: string)
    ensures forall i :: 0 <= i < |r| ==> !IsSpace(r[i])
  {
    if s == [] then [] else (if IsSpace(s[0]) then [] else [s[0]]) + RemoveSpaces(s[1..])
  }

  lemma {:induction false} RemoveSpacesAppend(a: string, b: string)
    ensures RemoveSpaces(a + b) == RemoveSpaces(a) + RemoveSpaces(b)
    decreases |a|
  {
    if a != [] {
      assert (a + b)[1..] == a[1..] + b;
      RemoveSpacesAppend(a[1..], b);
    } else {
      assert a + b == b;
    }
  }

  lemma {:induction false} RemoveSpacesOfSpaces(s: string)
    requires forall i :: 0 <= i < |s| ==> IsSpace(s[i])
    ensures RemoveSpaces(s) == []
    decreases |s|
  {
    if s != [] {
      RemoveSpacesOfSpaces(s[1..]);
    }
  }

  lemma {:induction false} RemoveSpacesOfWord(s: string)
    requires forall i :: 0 <= i < |s| ==> !IsSpace(s[i])
    ensures RemoveSpaces(s) == s
    decreases |s|
  {
    if s != [] {
      RemoveSpacesOfWord(s[1..]);
    }
  }

  /** Dropping a whitespace prefix removes nothing that `RemoveSpaces` keeps. */
  lemma CutSpaces(s: string, k: nat)
    requires k <= |s| && forall i :: 0 <= i < k ==> IsSpace(s[i])
    ensures RemoveSpaces(s) == RemoveSpaces(s[k..])
  {
    assert s == s[..k] + s[k..];
    RemoveSpacesAppend(s[..k], s[k..]);
    RemoveSpacesOfSpaces(s[..k]);
  }

  /** A whitespace-free prefix is kept whole. */
  lemma CutWord(s: string, k: nat)
    requires k <= |s| && forall i :: 0 <= i < k ==> !IsSpace(s[i])
    ensures RemoveSpaces(s) == s[..k] + RemoveSpaces(s[k..])
  {
    assert s == s[..k] + s[k..];
    RemoveSpacesAppend(s[..k], s[k..]);
    RemoveSpacesOfWord(s[..k]);
  }

  /** One step of `split()`: the word taken after the leading whitespace is a word, followed by the rest. */
  lemma SplitStepWords(w: string, rest: seq<string>)
    requires IsWord(w)
    requires forall i :: 0 <= i < |rest| ==> IsWord(rest[i])
    ensures forall i :: 0 <= i < |[w] + rest| ==> IsWord(([w] + rest)[i])
  {
  }

  /** One step of `split()`: skipping the leading whitespace and taking one word loses no other character. */
  lemma SplitStepText(s: string, rest: seq<string>)
    requires DropSpaces(s) != []
    requires Concat(rest) == RemoveSpaces(DropSpaces(s)[WordLength(DropSpaces(s))..])
    ensures Concat([DropSpaces(s)[..WordLength(DropSpaces(s))]] + rest) == RemoveSpaces(s)
  {
    var t := DropSpaces(s);
    var n := WordLength(t);
    CutSpaces(s, |s| - |t|);
    CutWord(t, n);
    assert ([t[..n]] + rest)[1..] == rest;
  }

  /**
   * `s.split()`: whitespace-free words which, written one after another,
   * give back every non-whitespace character of `s`, in order.
   */
  function Split(s: string): (words: seq<string>)
    ensures forall i :: 0 <= i < |words| ==> IsWord(words[i])
    ensures Concat(words) == RemoveSpaces(s)
    decreases |s|
  {
    var t := DropSpaces(s);
    if t == [] then
      CutSpaces(s, |s|);
      []
    else
      var n := WordLength(t);
      var rest := Split(t[n..]);
      SplitStepWords(t[..n], rest);
      SplitStepText(s, rest);
      [t[..n]] + rest
  }

  /** Leading whitespace of `x + y` comes from `x` alone unless `x` is all whitespace. */
  lemma {:induction false} DropSpacesAppend(x: string, y: string)
    ensures DropSpaces(x) != [] ==> DropSpaces(x + y) == DropSpaces(x) + y
    ensures DropSpaces(x) == [] ==> DropSpaces(x + y) == DropSpaces(y)
    decreases |x|
  {
    if x == [] {
      assert x + y == y;
    } else if IsSpace(x[0]) {
      assert (x + y)[1..] == x[1..] + y;
      DropSpacesAppend(x[1..], y);
    } else {
      assert (x + y)[0] == x[0];
    }
  }

  /** A word of `x` ends no later than a whitespace character appended after `x`. */
  lemma {:induction false} WordLengthAppendSpace(x: string, c: char, y: string)
    requires IsSpace(c)
    ensures WordLength(x + [c] + y) == WordLength(x)
    decreases |x|
  {
    if x == [] {
      assert x + [c] + y == [c] + y;
    } else {
      assert (x + [c] + y)[0] == x[0];
      assert (x + [c] + y)[1..] == x[1..] + [c] + y;
      WordLengthAppendSpace(x[1..], c, y);
    }
  }

  /** `split()` reads only what is left after the leading whitespace. */
  lemma SplitSameDrop(x: string, y: string)
    requires DropSpaces(x) == DropSpaces(y)
    ensures Split(x) == Split(y)
  {
  }

  /** One step of `split()`, as an equation. */
  lemma SplitStep(s: string)
    requires DropSpaces(s) != []
    ensures var t := DropSpaces(s); var n := WordLength(t);
      1 <= n && Split(s) == [t[..n]] + Split(t[n..])
  {
    var t := DropSpaces(s);
    assert !IsSpace(s[|s| - |t|]);
  }

  /** The text after a whitespace character starts at its first non-whitespace character. */
  lemma DropLeadingSpace(c: char, b: string)
    requires IsSpace(c)
    ensures DropSpaces([c] + b) == DropSpaces(b)
  {
    assert ([c] + b)[1..] == b;
  }

  /** Whitespace after `a` does not change where the text of `a` starts. */
  lemma DropPastSpace(a: string, c: char, b: string)
    requires IsSpace(c) && DropSpaces(a) != []
    ensures DropSpaces(a + [c] + b) == DropSpaces(a) + [c] + b
  {
    assert a + [c] + b == a + ([c] + b);
    DropSpacesAppend(a, [c] + b);
    assert DropSpaces(a) + ([c] + b) == DropSpaces(a) + [c] + b;
  }

  lemma AppendAssoc(x: seq<string>, y: seq<string>, z: seq<string>)
    ensures x + (y + z) == (x + y) + z
  {
  }

  lemma Regroup(t: string, n: nat, c: char, b: string)
    requires n <= |t|
    ensures t + [c] + b == t[..n] + (t[n..] + [c] + b)
  {
    assert t == t[..n] + t[n..];
  }

  /** When `a` is all whitespace, so is everything up to `b`. */
  lemma SplitAfterSpaces(a: string, c: char, b: string)
    requires IsSpace(c) && DropSpaces(a) == []
    ensures Split(a) == [] && Split(a + [c] + b) == Split(b)
  {
    assert a + [c] + b == a + ([c] + b);
    DropSpacesAppend(a, [c] + b);
    DropLeadingSpace(c, b);
    SplitSameDrop(a + [c] + b, b);
  }

  /** Text that starts, after its whitespace, with the word `w` followed by whitespace or nothing splits into `w` and the rest. */
  lemma SplitFirstWord(s: string, w: string, r: string)
    requires IsWord(w) && (r == [] || IsSpace(r[0]))
    requires DropSpaces(s) == w + r
    ensures Split(s) == [w] + Split(r)
  {
    WordLengthOfWord(w, r);
    SplitStep(s);
    assert (w + r)[..|w|] == w;
    assert (w + r)[|w|..] == r;
  }

  /** The first word of `a` is also the first word of `a + [c] + b`. */
  lemma SplitPastWord(a: string, c: char, b: string)
    requires IsSpace(c) && DropSpaces(a) != []
    ensures var t := DropSpaces(a); var n := WordLength(t);
      && 1 <= n
      && Split(a) == [t[..n]] + Split(t[n..])
      && Split(a + [c] + b) == [t[..n]] + Split(t[n..] + [c] + b)
  {
    var t := DropSpaces(a);
    var n := WordLength(t);
    SplitStep(a);
    var w, r := t[..n], t[n..] + [c] + b;
    DropPastSpace(a, c, b);
    Regroup(t, n, c, b);
    assert r[0] == if n < |t| then t[n] else c;
    SplitFirstWord(a + [c] + b, w, r);
  }

  /** `split()` breaks at every whitespace character: the text on either side splits independently. */
  lemma {:induction false} SplitAtSpace(a: string, c: char, b: string)
    requires IsSpace(c)
    ensures Split(a + [c] + b) == Split(a) + Split(b)
    decreases |a|
  {
    var t := DropSpaces(a);
    if t == [] {
      SplitAfterSpaces(a, c, b);
    } else {
      var n := WordLength(t);
      SplitPastWord(a, c, b);
      SplitAtSpace(t[n..], c, b);
      AppendAssoc([t[..n]], Split(t[n..]), Split(b));
    }
  }

  /** `split()` returns no words exactly when the text is all whitespace. */
  lemma SplitEmpty(s: string)
    ensures Split(s) == [] <==> forall i :: 0 <= i < |s| ==> IsSpace(s[i])
  {
    var t := DropSpaces(s);
    if t != [] {
      SplitStep(s);
      assert !IsSpace(s[|s| - |t|]);
    }
  }

  /** A whitespace-free word splits into itself. */
  lemma {:induction false} SplitOfWord(w: string)
    requires IsWord(w)
    ensures Split(w) == [w]
  {
    DropSpacesOfWordStart(w);
    WordLengthOfWord(w, []);
    assert w + [] == w;
    assert w[|w|..] == [];
  }

  lemma {:induction false} DropSpacesOfWordStart(s: string)
    requires s != [] && !IsSpace(s[0])
    ensures DropSpaces(s) == s
  {
  }

  lemma {:induction false} WordLengthOfWord(w: string, rest: string)
    requires IsWord(w)
    requires rest == [] || IsSpace(rest[0])
    ensures WordLength(w + rest) == |w|
    decreases |w|
  {
    if |w| > 1 {
      assert (w + rest)[1..] == w[1..] + rest;
      WordLengthOfWord(w[1..], rest);
    } else {
      assert (w + rest)[1..] == rest;
    }
  }

  /** Splitting a space-joined list of words gives the list back. */
  lemma {:induction false} SplitJoin(words: seq<string>)
    requires forall i :: 0 <= i < |words| ==> IsWord(words[i])
    ensures Split(Join(words)) == words
    decreases |words|
  {
    if words == [] {
    } else if |words| == 1 {
      SplitOfWord(words[0]);
    } else {
      var w, rest := words[0], Join(words[1..]);
      JoinStartsWithFirst(words[1..]);
      var s := w + " " + rest;
      assert s[0] == w[0];
      DropSpacesOfWordStart(s);
      assert s == w + (" " + rest);
      WordLengthOfWord(w, " " + rest);
      assert s[..|w|] == w;
      assert s[|w|..] == " " + rest;
      SplitJoin(words[1..]);
      assert DropSpaces(" " + rest) == DropSpaces(rest);
      DropSpacesOfWordStart(rest);
      assert Split(" " + rest) == Split(rest);
    }
  }

  lemma {:induction false} JoinStartsWithFirst(words: seq<string>)
    requires words != [] && IsWord(words[0])
    ensures Join(words) != [] && Join(words)[0] == words[0][0]
  {
  }
}
