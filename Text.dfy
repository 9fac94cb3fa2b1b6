/**
 * String operations the crawler uses: substring tests (`"tweet" in entry_id`,
 * `"api/graphql" in url`), the text cleaning of `_prepare_csv_row`
 * (`re.sub(r'(\s+|https?://[^\s]+)', ' ', text).strip()`) and the
 * `.replace(" ", "_")` of the output file name.
 */
module Text {

  // ---------------------------------------------------------------------------
  // Substrings
  // ---------------------------------------------------------------------------

  /** Python's `t in s` on strings, computed by scanning `s` left to right. */
  predicate Contains(s: string, t: string)
    decreases |s|
  {
    |t| <= |s| && (s[..|t|] == t || Contains(s[1..], t))
  }

  /** `t` occurs in `s` starting at index `i`. */
  ghost predicate OccursAt(s: string, t: string, i: int)
  {
    0 <= i && i + |t| <= |s| && s[i..i + |t|] == t
  }

  /** The scan finds `t` exactly when `t` occurs somewhere in `s`. */
  lemma {:induction false} ContainsIffOccurs(s: string, t: string)
    ensures Contains(s, t) <==> exists i :: OccursAt(s, t, i)
    decreases |s|
  {
    if |t| > |s| {
      assert forall i :: !OccursAt(s, t, i);
    } else if s[..|t|] == t {
      assert OccursAt(s, t, 0);
    } else {
      ContainsIffOccurs(s[1..], t);
      assert !OccursAt(s, t, 0);
      forall i | OccursAt(s[1..], t, i)
        ensures OccursAt(s, t, i + 1)
      {
        assert s[i + 1..i + 1 + |t|] == s[1..][i..i + |t|];
      }
      forall i | OccursAt(s, t, i)
        ensures OccursAt(s[1..], t, i - 1)
      {
        assert s[1..][i - 1..i - 1 + |t|] == s[i..i + |t|];
      }
    }
  }

  // ---------------------------------------------------------------------------
  // Whitespace
  // ---------------------------------------------------------------------------

  /**
   * Python's whitespace: what `\s` matches in a `str` pattern and what
   * `str.strip()` removes (both use the same Unicode table).
   */
  predicate IsSpace(c: char)
  {
    || ('\t' <= c <= '\r')
    || ('\U{1c}' <= c <= '\U{1f}')
    || c == ' '
    || c == '\U{85}'
    || c == '\U{a0}'
    || c == '\U{1680}'
    || ('\U{2000}' <= c <= '\U{200a}')
    || c == '\U{2028}'
    || c == '\U{2029}'
    || c == '\U{202f}'
    || c == '\U{205f}'
    || c == '\U{3000}'
  }

  /** Length of the whitespace run at the start of `s` (greedy `\s+`). */
  function SpaceRun(s: string): (n: nat)
    ensures n <= |s|
    ensures forall i :: 0 <= i < n ==> IsSpace(s[i])
    ensures n < |s| ==> !IsSpace(s[n])
  {
    if s == [] || !IsSpace(s[0]) then 0 else 1 + SpaceRun(s[1..])
  }

  /** Length of the non-whitespace run at the start of `s` (greedy `[^\s]+`). */
  function NonSpaceRun(s: string): (n: nat)
    ensures n <= |s|
    ensures forall i :: 0 <= i < n ==> !IsSpace(s[i])
    ensures n < |s| ==> IsSpace(s[n])
  {
    if s == [] || IsSpace(s[0]) then 0 else 1 + NonSpaceRun(s[1..])
  }

  // ---------------------------------------------------------------------------
  // Cleaning: re.sub(r'(\s+|https?://[^\s]+)', ' ', text).strip()
  // ---------------------------------------------------------------------------

  /** The second alternative `https?://[^\s]+` matches at the start of `s`. */
  predicate UrlAt(s: string)
  {
    && |s| >= 8
    && s[0] == 'h' && s[1] == 't' && s[2] == 't' && s[3] == 'p'
    && (|| (s[4] == ':' && s[5] == '/' && s[6] == '/' && !IsSpace(s[7]))
        || (|s| >= 9 && s[4] == 's' && s[5] == ':' && s[6] == '/' && s[7] == '/' && !IsSpace(s[8])))
  }

  /** Length of the URL match at the start of `s`: the scheme and the whole non-whitespace run after it. */
  function UrlLength(s: string): (n: nat)
    requires UrlAt(s)
    ensures 8 <= n <= |s|
    ensures forall i :: 0 <= i < n ==> !IsSpace(s[i])
    ensures n < |s| ==> IsSpace(s[n])
  {
    var scheme := if s[4] == ':' then 7 else 8;
    scheme + NonSpaceRun(s[scheme..])
  }

  /**
   * One left-to-right pass of `re.sub`: at each position the whitespace
   * alternative is tried first, then the URL alternative; a match becomes one
   * space, any other character is copied.
   */
  function Substitute(s: string): (r: string)
    ensures forall i :: 0 <= i < |r| && IsSpace(r[i]) ==> r[i] == ' '
    decreases |s|
  {
    if s == [] then []
    else if IsSpace(s[0]) then " " + Substitute(s[SpaceRun(s)..])
    else if UrlAt(s) then " " + Substitute(s[UrlLength(s)..])
    else [s[0]] + Substitute(s[1..])
  }

  /** `s[..n]` with trailing whitespace removed. */
  function TrimmedEnd(s: string, n: nat): (m: nat)
    requires n <= |s|
    ensures m <= n
    ensures m > 0 ==> !IsSpace(s[m - 1])
    ensures forall i :: m <= i < n ==> IsSpace(s[i])
  {
    if n > 0 && IsSpace(s[n - 1]) then TrimmedEnd(s, n - 1) else n
  }

  /**
   * Python's `str.strip()`: the longest middle slice with no whitespace at
   * either end, and only whitespace removed on each side.
   */
  function Strip(s: string): (r: string)
    ensures r == [] || (!IsSpace(r[0]) && !IsSpace(r[|r| - 1]))
    ensures SpaceRun(s) + |r| <= |s| && r == s[SpaceRun(s)..SpaceRun(s) + |r|]
    ensures forall i :: 0 <= i < SpaceRun(s) ==> IsSpace(s[i])
    ensures forall i :: SpaceRun(s) + |r| <= i < |s| ==> IsSpace(s[i])
  {
    var a := SpaceRun(s);
    var rest := s[a..];
    var m := TrimmedEnd(rest, |rest|);
    assert m > 0 ==> rest[0] == s[a];
    forall i | a + m <= i < |s| ensures IsSpace(s[i]) {
      assert s[i] == rest[i - a];
    }
    assert rest[..m] == s[a..a + m];
    rest[..m]
  }

  /** The text cleaning of `_prepare_csv_row`. */
  function CleanText(s: string): (r: string)
    ensures r == [] || (!IsSpace(r[0]) && !IsSpace(r[|r| - 1]))
    ensures forall i :: 0 <= i < |r| && IsSpace(r[i]) ==> r[i] == ' '
    ensures forall i :: 0 <= i < |r| ==> !UrlAt(r[i..])
  {
    var u := Substitute(s);
    var r := Strip(u);
    var a := SpaceRun(u);
    forall i | 0 <= i < |r| ensures !UrlAt(r[i..]) && (IsSpace(r[i]) ==> r[i] == ' ') {
      NoUrlInSlice(s, a, r, i);
      assert r[i] == u[a + i];
    }
    r
  }

  /** No URL starts anywhere in a slice of the substituted text. */
  lemma NoUrlInSlice(s: string, a: nat, r: string, i: nat)
    requires a + |r| <= |Substitute(s)| && r == Substitute(s)[a..a + |r|] && i < |r|
    ensures !UrlAt(r[i..])
  {
    var u := Substitute(s);
    SubstituteLeavesNoUrl(s, a + i);
    assert u[a + i..][..|r[i..]|] == r[i..];
    UrlAtExtends(r[i..], u[a + i..]);
  }

  /** A URL at the start of a text is still there once the text is extended. */
  lemma UrlAtExtends(p: string, q: string)
    requires |p| <= |q| && q[..|p|] == p
    ensures UrlAt(p) ==> UrlAt(q)
  {
    assert forall k :: 0 <= k < |p| ==> q[k] == p[k];
  }

  /** While `Substitute` has emitted no space, it has copied its input verbatim. */
  lemma {:induction false} SubstituteCopiesPrefix(t: string, n: nat)
    requires n <= |Substitute(t)|
    requires forall j :: 0 <= j < n ==> Substitute(t)[j] != ' '
    ensures n <= |t|
    ensures forall j :: 0 <= j < n ==> Substitute(t)[j] == t[j]
    decreases |t|
  {
    if n > 0 {
      var u := Substitute(t);
      assert u[0] != ' ';
      assert t != [] && !IsSpace(t[0]) && !UrlAt(t);
      SubstituteCopies(t);
      forall j | 0 <= j < n - 1 ensures Substitute(t[1..])[j] != ' ' {
        assert Substitute(t[1..])[j] == u[j + 1];
      }
      SubstituteCopiesPrefix(t[1..], n - 1);
    }
  }

  /** No `https?://` followed by a non-whitespace character survives the substitution. */
  lemma {:induction false} SubstituteLeavesNoUrl(s: string, i: nat)
    requires i < |Substitute(s)|
    ensures !UrlAt(Substitute(s)[i..])
    decreases |s|, 1
  {
    if IsSpace(s[0]) || UrlAt(s) {
      NoUrlAfterReplaced(s, i);
    } else {
      NoUrlAfterCopied(s, i);
    }
  }

  /** The case of `SubstituteLeavesNoUrl` where a whitespace run or a URL starts `s`. */
  lemma {:induction false} NoUrlAfterReplaced(s: string, i: nat)
    requires s != [] && (IsSpace(s[0]) || UrlAt(s)) && i < |Substitute(s)|
    ensures !UrlAt(Substitute(s)[i..])
    decreases |s|, 0
  {
    var u := Substitute(s);
    var n := if IsSpace(s[0]) then SpaceRun(s) else UrlLength(s);
    SubstituteReplaces(s);
    if i > 0 {
      SubstituteLeavesNoUrl(s[n..], i - 1);
      NoUrlAfterFirst(u, ' ', Substitute(s[n..]), i);
    } else {
      assert u[0..][0] == ' ';
    }
  }

  /** The case of `SubstituteLeavesNoUrl` where the first character of `s` is copied. */
  lemma {:induction false} NoUrlAfterCopied(s: string, i: nat)
    requires s != [] && !IsSpace(s[0]) && !UrlAt(s) && i < |Substitute(s)|
    ensures !UrlAt(Substitute(s)[i..])
    decreases |s|, 0
  {
    var u := Substitute(s);
    SubstituteCopies(s);
    if i > 0 {
      SubstituteLeavesNoUrl(s[1..], i - 1);
      NoUrlAfterFirst(u, s[0], Substitute(s[1..]), i);
    } else {
      assert u[0..] == u;
      NoUrlAtCopiedChar(s);
    }
  }

  /** Past the first character, the URL positions of `[c] + t` are those of `t`. */
  lemma NoUrlAfterFirst(u: string, c: char, t: string, i: nat)
    requires u == [c] + t && 0 < i <= |t|
    requires !UrlAt(t[i - 1..])
    ensures !UrlAt(u[i..])
  {
    assert u[i..] == t[i - 1..];
  }

  /** A whitespace run or a URL at the start becomes one space. */
  lemma SubstituteReplaces(s: string)
    requires s != [] && (IsSpace(s[0]) || UrlAt(s))
    ensures Substitute(s) == " " + Substitute(s[if IsSpace(s[0]) then SpaceRun(s) else UrlLength(s)..])
  {
  }

  /** A copied character cannot start a URL: the scheme after it would have been copied from `s` too. */
  lemma NoUrlAtCopiedChar(s: string)
    requires s != [] && !IsSpace(s[0]) && !UrlAt(s)
    ensures !UrlAt(Substitute(s))
  {
    var tail := Substitute(s[1..]);
    var u := Substitute(s);
    SubstituteCopies(s);
    var k := LeadingNonBlank(tail, 8);
    SubstituteCopiesPrefix(s[1..], k);
    assert forall j :: 1 <= j <= k ==> u[j] == s[j];
  }

  /** A character that starts neither alternative is copied. */
  lemma SubstituteCopies(s: string)
    requires s != [] && !IsSpace(s[0]) && !UrlAt(s)
    ensures Substitute(s) == [s[0]] + Substitute(s[1..])
  {
  }

  /** Number of leading characters of `t` other than ' ', counting at most `cap`. */
  function LeadingNonBlank(t: string, cap: nat): (k: nat)
    ensures k <= cap && k <= |t|
    ensures forall j :: 0 <= j < k ==> t[j] != ' '
    ensures k < cap && k < |t| ==> t[k] == ' '
  {
    if cap == 0 || t == [] || t[0] == ' ' then 0 else 1 + LeadingNonBlank(t[1..], cap - 1)
  }

  // ---------------------------------------------------------------------------
  // Pieces for computing Substitute on concrete text
  // ---------------------------------------------------------------------------

  /** A word: non-empty, no whitespace, and no 'h' followed by 't' (so no URL can start in it). */
  predicate PlainWord(w: string)
  {
    && w != []
    && !IsSpace(w[0])
    && (w[0] == 'h' ==> |w| > 1 && w[1] != 't')
    && (|w| > 1 ==> PlainWord(w[1..]))
  }

  /** Text starting with a plain word starts neither a whitespace run nor a URL. */
  lemma PlainWordStartsNoUrl(w: string, t: string)
    requires PlainWord(w)
    ensures (w + t)[0] == w[0] && !IsSpace((w + t)[0]) && !UrlAt(w + t)
  {
    var s := w + t;
    assert s[0] == w[0];
    assert |w| > 1 ==> s[1] == w[1];
  }

  /** A plain word is copied unchanged. */
  lemma {:induction false} SubstituteWord(w: string, t: string)
    requires PlainWord(w)
    ensures Substitute(w + t) == w + Substitute(t)
    decreases |w|
  {
    var s := w + t;
    assert s[1..] == w[1..] + t;
    PlainWordStartsNoUrl(w, t);
    SubstituteCopies(s);
    if |w| == 1 {
      assert w[1..] + t == t;
    } else {
      SubstituteWord(w[1..], t);
      assert w == [w[0]] + w[1..];
    }
  }

  /** A whitespace run becomes one space. */
  lemma SubstituteSpaces(w: string, t: string)
    requires w != [] && forall i :: 0 <= i < |w| ==> IsSpace(w[i])
    requires t == [] || !IsSpace(t[0])
    ensures Substitute(w + t) == " " + Substitute(t)
  {
    var s := w + t;
    assert s[0] == w[0];
    assert forall i :: 0 <= i < |w| ==> s[i] == w[i];
    assert |w| < |s| ==> s[|w|] == t[0];
    assert SpaceRun(s) == |w|;
    assert s[|w|..] == t;
  }

  /** A URL followed by whitespace or the end becomes one space. */
  lemma SubstituteUrl(w: string, t: string)
    requires UrlAt(w) && forall i :: 0 <= i < |w| ==> !IsSpace(w[i])
    requires t == [] || IsSpace(t[0])
    ensures Substitute(w + t) == " " + Substitute(t)
  {
    var s := w + t;
    UrlAtExtends(w, s);
    assert forall i :: 0 <= i < |w| ==> s[i] == w[i];
    assert |w| < |s| ==> s[|w|] == t[0];
    assert !IsSpace(s[0]);
    assert UrlLength(s) == |w|;
    assert s[|w|..] == t;
  }

  /** Three plain words separated by single spaces are copied. */
  lemma SubstituteThreeWords(a: string, b: string, c: string, t: string)
    requires PlainWord(a) && PlainWord(b) && PlainWord(c)
    ensures Substitute(a + (" " + (b + (" " + (c + t))))) == a + (" " + (b + (" " + (c + Substitute(t)))))
  {
    var t3 := c + t;
    SubstituteWord(c, t);
    assert t3[0] == c[0];
    SubstituteSpaces(" ", t3);
    var t1 := b + (" " + t3);
    SubstituteWord(b, " " + t3);
    assert t1[0] == b[0];
    SubstituteSpaces(" ", t1);
    SubstituteWord(a, " " + t1);
  }

  /**
   * A URL between two whitespace runs leaves three spaces, not one: the runs
   * and the URL are each replaced by their own space.
   */
  lemma SubstituteUrlBetweenSpaces(url: string, d: string)
    requires PlainWord(d)
    requires UrlAt(url) && forall i :: 0 <= i < |url| ==> !IsSpace(url[i])
    ensures Substitute("   " + (url + ("  " + d))) == " " + (" " + (" " + d))
  {
    SubstituteWord(d, []);
    assert d + [] == d;
    var t6 := "  " + d;
    SubstituteSpaces("  ", d);
    var t5 := url + t6;
    SubstituteUrl(url, t6);
    SubstituteSpaces("   ", t5);
  }

  /** The cleaning of a sample post text, as the code computes it. */
  lemma CleanTextExample()
    ensures CleanText("Check this out   https://example.com/x  now") == "Check this out   now"
  {
    var u := "Check this out   now";
    SubstituteExample();
    assert !IsSpace(u[0]) && !IsSpace(u[|u| - 1]);
    assert SpaceRun(u) == 0;
  }

  /** The substitution pass on the sample text, before stripping. */
  lemma SubstituteExample()
    ensures Substitute("Check this out   https://example.com/x  now") == "Check this out   now"
  {
    var url := "https://example.com/x";
    ExampleWordsPlain();
    ExampleUrlToken();
    SubstituteUrlBetweenSpaces(url, "now");
    var tail := "   " + (url + ("  " + "now"));
    SubstituteThreeWords("Check", "this", "out", tail);
    ExampleInputSplits();
    ExampleOutputSplits();
  }

  /** The words of the sample are plain. */
  lemma ExampleWordsPlain()
    ensures PlainWord("Check") && PlainWord("this") && PlainWord("out") && PlainWord("now")
  {
    assert PlainWord("heck") && PlainWord("his") && PlainWord("ut") && PlainWord("ow");
  }

  /** The URL of the sample is one whitespace-free URL token. */
  lemma ExampleUrlToken()
    ensures UrlAt("https://example.com/x") && forall i :: 0 <= i < |"https://example.com/x"| ==> !IsSpace("https://example.com/x"[i])
  {
    var url := "https://example.com/x";
    forall i | 0 <= i < |url| ensures !IsSpace(url[i]) {
      PrintableNotSpace(url[i]);
    }
  }

  /** Printable ASCII other than the space is not whitespace. */
  lemma PrintableNotSpace(c: char)
    requires '!' <= c <= '~'
    ensures !IsSpace(c)
  {
  }

  /** How the sample text breaks into words, runs and the URL. */
  lemma ExampleInputSplits()
    ensures "Check" + (" " + ("this" + (" " + ("out" + ("   " + ("https://example.com/x" + ("  " + "now")))))))
         == "Check this out   https://example.com/x  now"
  {
  }

  /** How the cleaned sample breaks into words and spaces. */
  lemma ExampleOutputSplits()
    ensures "Check" + (" " + ("this" + (" " + ("out" + (" " + (" " + (" " + "now"))))))) == "Check this out   now"
  {
  }

  // ---------------------------------------------------------------------------
  // File names: str.replace(" ", "_")
  // ---------------------------------------------------------------------------

  /** Python's `s.replace(" ", "_")`. */
  function ReplaceSpaces(s: string): (r: string)
    ensures |r| == |s|
    ensures forall i :: 0 <= i < |s| ==> r[i] == (if s[i] == ' ' then '_' else s[i])
  {
    if s == [] then [] else [if s[0] == ' ' then '_' else s[0]] + ReplaceSpaces(s[1..])
  }
}
