/** Selector normalisation: removeNewLinesFromSelector trims the selector
    and then removes "\r\n", "\n" and "\r", in that order, with
    String.replace. Two selectors are the same when their normal forms are
    equal. */
module Selectors {

  /** String.trim removes every leading and trailing character whose code is
      at most U+0020. */
  predicate IsTrimmable(c: char) {
    c <= ' '
  }

  predicate IsLineBreak(c: char) {
    c == '\r' || c == '\n'
  }

  /** A string that trim leaves alone: empty, or bounded by non-trimmable
      characters. */
  predicate IsTrimmed(s: string) {
    s == [] || (!IsTrimmable(s[0]) && !IsTrimmable(s[|s| - 1]))
  }

  predicate AllTrimmable(s: string) {
    forall i :: 0 <= i < |s| ==> IsTrimmable(s[i])
  }

  function TrimStart(s: string): (r: string)
    ensures |r| <= |s| && r == s[|s| - |r|..]
    ensures r == [] || !IsTrimmable(r[0])
    ensures forall i :: 0 <= i < |s| - |r| ==> IsTrimmable(s[i])
  {
    if s != [] && IsTrimmable(s[0]) then
      var r := TrimStart(s[1..]);
      assert s[1..][|s| - 1 - |r|..] == s[|s| - |r|..];
      r
    else s
  }

  function TrimEnd(s: string): (r: string)
    ensures |r| <= |s| && r == s[..|r|]
    ensures r == [] || !IsTrimmable(r[|r| - 1])
    ensures forall i :: |r| <= i < |s| ==> IsTrimmable(s[i])
  {
    if s != [] && IsTrimmable(s[|s| - 1]) then
      var r := TrimEnd(s[..|s| - 1]);
      assert s[..|s| - 1][..|r|] == s[..|r|];
      r
    else s
  }

  /** String.trim. */
  function Trim(s: string): (r: string)
    ensures IsTrimmed(r)
  {
    TrimEnd(TrimStart(s))
  }

  /** String.replace(pat, ""): scanning from the left, every occurrence of
      `pat` that does not overlap an earlier removed one is dropped. */
  function RemoveAll(s: string, pat: string): (r: string)
    requires pat != []
    ensures |r| <= |s|
    decreases |s|
  {
    if |s| < |pat| then s
    else if s[..|pat|] == pat then RemoveAll(s[|pat|..], pat)
    else [s[0]] + RemoveAll(s[1..], pat)
  }

  /** removeNewLinesFromSelector, step by step as the source writes it. */
  function RemoveNewLinesFromSelector(selector: string): string {
    RemoveAll(RemoveAll(RemoveAll(Trim(selector), "\r\n"), "\n"), "\r")
  }

  /** Reference definition: every carriage return and line feed removed. */
  function DropLineBreaks(s: string): (r: string)
    ensures |r| <= |s|
    ensures forall i :: 0 <= i < |r| ==> !IsLineBreak(r[i])
  {
    if s == [] then []
    else if IsLineBreak(s[0]) then DropLineBreaks(s[1..])
    else [s[0]] + DropLineBreaks(s[1..])
  }

  /** Reference normal form of a selector: trimmed, then without line breaks. */
  function Canonical(selector: string): string {
    DropLineBreaks(Trim(selector))
  }

  lemma {:induction false} DropLineBreaksAppend(a: string, b: string)
    ensures DropLineBreaks(a + b) == DropLineBreaks(a) + DropLineBreaks(b)
    decreases |a|
  {
    if a != [] {
      assert (a + b)[1..] == a[1..] + b;
      DropLineBreaksAppend(a[1..], b);
    } else {
      assert a + b == b;
    }
  }

  lemma {:induction false} DropLineBreaksOfClean(s: string)
    requires forall i :: 0 <= i < |s| ==> !IsLineBreak(s[i])
    ensures DropLineBreaks(s) == s
    decreases |s|
  {
    if s != [] {
      DropLineBreaksOfClean(s[1..]);
    }
  }

  /** Removing "\r\n" pairs first does not change which characters survive
      the removal of every line break. */
  lemma {:induction false} DropLineBreaksAfterPairRemoval(s: string)
    ensures DropLineBreaks(RemoveAll(s, "\r\n")) == DropLineBreaks(s)
    decreases |s|
  {
    if |s| < 2 {
    } else if s[..2] == "\r\n" {
      DropLineBreaksAfterPairRemoval(s[2..]);
      assert s == s[..2] + s[2..];
      DropLineBreaksAppend(s[..2], s[2..]);
      assert DropLineBreaks(s[..2]) == [] by {
        assert s[..2][1..] == "\n";
      }
    } else {
      DropLineBreaksAfterPairRemoval(s[1..]);
      DropLineBreaksAppend([s[0]], RemoveAll(s[1..], "\r\n"));
      DropLineBreaksAppend([s[0]], s[1..]);
      assert s == [s[0]] + s[1..];
    }
  }

  /** Removing every "\n" and then every "\r" removes exactly the line breaks. */
  lemma {:induction false} SingleRemovalsDropLineBreaks(s: string)
    ensures RemoveAll(RemoveAll(s, "\n"), "\r") == DropLineBreaks(s)
    decreases |s|
  {
    if s != [] {
      SingleRemovalsDropLineBreaks(s[1..]);
      var rest := RemoveAll(s[1..], "\n");
      if s[0] == '\n' {
        assert s[..1] == "\n";
      } else {
        assert s[..1] != "\n";
        assert RemoveAll(s, "\n") == [s[0]] + rest;
        assert ([s[0]] + rest)[1..] == rest;
        if s[0] == '\r' {
          assert ([s[0]] + rest)[..1] == "\r";
        } else {
          assert ([s[0]] + rest)[..1] != "\r";
        }
      }
    }
  }

  /** The source's chain of replacements agrees with the reference normal form. */
  lemma RemoveNewLinesIsCanonical(selector: string)
    ensures RemoveNewLinesFromSelector(selector) == Canonical(selector)
  {
    var t := Trim(selector);
    SingleRemovalsDropLineBreaks(RemoveAll(t, "\r\n"));
    DropLineBreaksAfterPairRemoval(t);
  }

  /** Dropping line breaks keeps a trimmed string trimmed: line breaks are
      themselves trimmable, so neither end character is dropped. */
  lemma DropLineBreaksKeepsTrimmed(s: string)
    requires IsTrimmed(s)
    ensures IsTrimmed(DropLineBreaks(s))
  {
    if s != [] {
      var n := |s|;
      assert s == s[..n - 1] + [s[n - 1]];
      DropLineBreaksAppend(s[..n - 1], [s[n - 1]]);
      assert DropLineBreaks([s[n - 1]]) == [s[n - 1]];
    }
  }

  lemma TrimOfTrimmed(s: string)
    requires IsTrimmed(s)
    ensures Trim(s) == s
  {
  }

  /** The normal form holds no carriage return and no line feed. */
  lemma RemoveNewLinesLeavesNoLineBreak(selector: string)
    ensures forall i :: 0 <= i < |RemoveNewLinesFromSelector(selector)| ==>
              !IsLineBreak(RemoveNewLinesFromSelector(selector)[i])
  {
    RemoveNewLinesIsCanonical(selector);
  }

  /** The normal form is trimmed. */
  lemma RemoveNewLinesIsTrimmed(selector: string)
    ensures IsTrimmed(RemoveNewLinesFromSelector(selector))
  {
    RemoveNewLinesIsCanonical(selector);
    DropLineBreaksKeepsTrimmed(Trim(selector));
  }

  /** Normalising twice gives the same result as normalising once. */
  lemma RemoveNewLinesIdempotent(selector: string)
    ensures RemoveNewLinesFromSelector(RemoveNewLinesFromSelector(selector)) ==
            RemoveNewLinesFromSelector(selector)
  {
    var n := RemoveNewLinesFromSelector(selector);
    RemoveNewLinesIsTrimmed(selector);
    RemoveNewLinesLeavesNoLineBreak(selector);
    RemoveNewLinesIsCanonical(n);
    TrimOfTrimmed(n);
    DropLineBreaksOfClean(n);
  }

  lemma {:induction false} TrimStartSkipsPrefix(pre: string, s: string)
    requires AllTrimmable(pre)
    ensures TrimStart(pre + s) == TrimStart(s)
    decreases |pre|
  {
    if pre != [] {
      assert (pre + s)[1..] == pre[1..] + s;
      TrimStartSkipsPrefix(pre[1..], s);
    } else {
      assert pre + s == s;
    }
  }

  lemma {:induction false} TrimEndSkipsSuffix(s: string, post: string)
    requires AllTrimmable(post)
    ensures TrimEnd(s + post) == TrimEnd(s)
    decreases |post|
  {
    if post != [] {
      var k := |post| - 1;
      assert (s + post)[..|s + post| - 1] == s + post[..k];
      TrimEndSkipsSuffix(s, post[..k]);
    } else {
      assert s + post == s;
    }
  }

  lemma {:induction false} TrimStartAppend(s: string, t: string)
    ensures TrimStart(s + t) == if TrimStart(s) == [] then TrimStart(t) else TrimStart(s) + t
    decreases |s|
  {
    if s == [] {
      assert s + t == t;
    } else if IsTrimmable(s[0]) {
      assert (s + t)[1..] == s[1..] + t;
      TrimStartAppend(s[1..], t);
    }
  }

  /** Leading and trailing whitespace, line breaks included, never changes
      the trimmed selector. */
  lemma TrimIgnoresSurroundingNoise(pre: string, s: string, post: string)
    requires AllTrimmable(pre) && AllTrimmable(post)
    ensures Trim(pre + s + post) == Trim(s)
  {
    assert pre + s + post == pre + (s + post);
    TrimStartSkipsPrefix(pre, s + post);
    TrimStartAppend(s, post);
    if TrimStart(s) == [] {
      assert TrimStart(post) == [] by {
        TrimStartSkipsPrefix(post, []);
        assert post + [] == post;
      }
    } else {
      TrimEndSkipsSuffix(TrimStart(s), post);
    }
  }

  /** Selectors that differ only by surrounding whitespace or line breaks
      have the same normal form: "main" and "main\r\n" are the same selector. */
  lemma SameSelectorUnderNoise(pre: string, s: string, post: string)
    requires AllTrimmable(pre) && AllTrimmable(post)
    ensures RemoveNewLinesFromSelector(pre + s + post) == RemoveNewLinesFromSelector(s)
  {
    TrimIgnoresSurroundingNoise(pre, s, post);
  }

  lemma {:induction false} TrimStartDropLineBreaks(s: string)
    ensures TrimStart(DropLineBreaks(s)) == DropLineBreaks(TrimStart(s))
    decreases |s|
  {
    if s != [] {
      TrimStartDropLineBreaks(s[1..]);
      if !IsLineBreak(s[0]) {
        assert DropLineBreaks(s) == [s[0]] + DropLineBreaks(s[1..]);
        assert ([s[0]] + DropLineBreaks(s[1..]))[1..] == DropLineBreaks(s[1..]);
      }
    }
  }

  lemma {:induction false} TrimEndDropLineBreaks(s: string)
    ensures TrimEnd(DropLineBreaks(s)) == DropLineBreaks(TrimEnd(s))
    decreases |s|
  {
    if s != [] {
      var n := |s|;
      var c := s[n - 1];
      var init := s[..n - 1];
      TrimEndDropLineBreaks(init);
      assert s == init + [c];
      DropLineBreaksAppend(init, [c]);
      var d := DropLineBreaks(init);
      if IsLineBreak(c) {
        assert DropLineBreaks([c]) == [];
        assert d + [] == d;
      } else {
        assert DropLineBreaks([c]) == [c];
        assert (d + [c])[..|d + [c]| - 1] == d;
      }
    }
  }

  /** Trimming and dropping line breaks commute: line breaks are themselves
      trimmable, so which one goes first makes no difference. */
  lemma TrimCommutesWithDropLineBreaks(s: string)
    ensures Trim(DropLineBreaks(s)) == DropLineBreaks(Trim(s))
  {
    TrimStartDropLineBreaks(s);
    TrimEndDropLineBreaks(TrimStart(s));
  }

  /** Line breaks inside a selector are ignored as well: "a\nb" is "ab", for
      every `a` and `b`. */
  lemma SameSelectorWithoutInnerBreak(a: string, b: string)
    ensures RemoveNewLinesFromSelector(a + "\n" + b) == RemoveNewLinesFromSelector(a + b)
  {
    var x, y := a + "\n" + b, a + b;
    RemoveNewLinesIsCanonical(x);
    RemoveNewLinesIsCanonical(y);
    TrimCommutesWithDropLineBreaks(x);
    TrimCommutesWithDropLineBreaks(y);
    assert DropLineBreaks(x) == DropLineBreaks(y) by {
      DropLineBreaksAppend(a + "\n", b);
      DropLineBreaksAppend(a, "\n");
      DropLineBreaksAppend(a, b);
      assert DropLineBreaks("\n") == [];
      assert DropLineBreaks(a) + [] == DropLineBreaks(a);
    }
  }

  /** A trailing "\r\n" never changes a selector: "main\r\n" is "main". */
  lemma TrailingLineBreakIgnored(s: string)
    ensures RemoveNewLinesFromSelector(s + "\r\n") == RemoveNewLinesFromSelector(s)
  {
    var none: string := [];
    assert none + s == s;
    assert AllTrimmable("\r\n");
    SameSelectorUnderNoise(none, s, "\r\n");
  }
}
