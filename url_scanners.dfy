/** The two URL regular expressions of the generation endpoint, written as scanners:
      image pattern  /https?:\/\/[^\s]+\.(?:jpg|jpeg|png|gif|webp)/gi
      bare pattern   /https?:\/\/[^\s]+/gi
    `content.match(pattern)` with the global flag lists every match left to right; only the
    first is used, so each scanner yields the leftmost match, chosen the way a backtracking
    engine chooses it at that position. */
module UrlScanners {
  import opened Wrappers
  import opened Js

  datatype Pattern = ImagePattern | BarePattern

  /** The file extensions of the image pattern, in the order of its alternation. */
  const Extensions: seq<string> := ["jpg", "jpeg", "png", "gif", "webp"]

  /** Length of the `https?://` prefix at `i`, or 0. The optional `s` is tried first; when
      it is present, the shorter alternative fails on the `:` that must follow `http`,
      so at most one prefix length is viable at each position. */
  function SchemeLength(s: string, i: nat): (n: nat)
    ensures n > 0 ==> i + n <= |s|
  {
    if HasPrefixIgnoringCase(s, i, "https://") then 8
    else if HasPrefixIgnoringCase(s, i, "http://") then 7
    else 0
  }

  /** End of the maximal run of non-whitespace characters starting at `p` (`[^\s]+`, greedy). */
  function RunEnd(s: string, p: nat): (e: nat)
    requires p <= |s|
    ensures p <= e <= |s|
    ensures NoWhitespaceIn(s, p, e)
    ensures e < |s| ==> IsJsWhitespace(s[e])
    decreases |s| - p
  {
    if p == |s| || IsJsWhitespace(s[p]) then p else RunEnd(s, p + 1)
  }

  /** The first of `alternatives` found at `i`, ignoring ASCII case, or "" if none is. */
  function FirstAlternative(s: string, i: nat, alternatives: seq<string>): (x: string)
    ensures x == "" || (x in alternatives && HasPrefixIgnoringCase(s, i, x))
    decreases |alternatives|
  {
    if alternatives == [] then ""
    else if alternatives[0] != "" && HasPrefixIgnoringCase(s, i, alternatives[0]) then alternatives[0]
    else FirstAlternative(s, i, alternatives[1..])
  }

  /** The alternative of `\.(?:jpg|jpeg|png|gif|webp)` that matches with its dot at `q`
      (alternatives tried in order, letters compared ignoring ASCII case), or "" if none does. */
  function ExtensionWord(s: string, q: nat): (x: string)
    ensures x == "" || (q < |s| && s[q] == '.' && x in Extensions && HasPrefixIgnoringCase(s, q + 1, x))
    ensures q + 1 + |x| <= |s| || x == ""
  {
    if q >= |s| || s[q] != '.' then "" else FirstAlternative(s, q + 1, Extensions)
  }

  /** `s[q..]` starts with a dot followed by one of the extensions. */
  predicate ExtensionAt(s: string, q: nat) {
    ExtensionWord(s, q) != ""
  }

  /** Every alternative is tried: none of them is at `i` when the search finds nothing. */
  lemma {:induction false} NoAlternative(s: string, i: nat, alternatives: seq<string>)
    requires FirstAlternative(s, i, alternatives) == ""
    ensures forall a | a in alternatives && a != "" :: !HasPrefixIgnoringCase(s, i, a)
    decreases |alternatives|
  {
    if alternatives != [] {
      NoAlternative(s, i, alternatives[1..]);
    }
  }

  /** There is no extension at `q` exactly when `q` is not a dot followed by one of them. */
  lemma NoExtensionAt(s: string, q: nat)
    ensures !ExtensionAt(s, q) <==>
            q >= |s| || s[q] != '.' || forall a | a in Extensions :: !HasPrefixIgnoringCase(s, q + 1, a)
  {
    if q < |s| && s[q] == '.' && !ExtensionAt(s, q) {
      NoAlternative(s, q + 1, Extensions);
    }
  }

  /** The extensions are all printable ASCII text. */
  lemma ExtensionsVisible()
    ensures forall x | x in Extensions :: IsVisibleAscii(x)
  {
    assert IsVisibleAscii("jpg") && IsVisibleAscii("jpeg") && IsVisibleAscii("png");
    assert IsVisibleAscii("gif") && IsVisibleAscii("webp");
  }

  /** The last index in `[lo, hi)` where `bs` holds `true`. */
  function LastTrue(bs: seq<bool>, lo: nat, hi: nat): (r: Option<nat>)
    requires lo <= hi <= |bs|
    ensures r.Some? ==> lo <= r.value < hi && bs[r.value]
    ensures r.Some? ==> forall q | r.value < q < hi :: !bs[q]
    ensures r.None? ==> forall q | lo <= q < hi :: !bs[q]
    decreases hi - lo
  {
    if hi == lo then None
    else if bs[hi - 1] then Some(hi - 1)
    else LastTrue(bs, lo, hi - 1)
  }

  /** Where in `s` an extension starts. */
  function ExtensionTable(s: string): (bs: seq<bool>)
    ensures |bs| == |s|
    ensures forall q | 0 <= q < |s| :: bs[q] == ExtensionAt(s, q)
  {
    seq(|s|, q => 0 <= q && ExtensionAt(s, q))
  }

  /** The backtracking of `[^\s]+` before `\.ext`: the greedy run is given back one character
      at a time, so the dot chosen is the LAST one in `[lo, hi)` that starts an extension. */
  function LastExtensionDot(s: string, lo: nat, hi: nat): (r: Option<nat>)
    requires lo <= hi <= |s|
    ensures r.Some? ==> lo <= r.value < hi && ExtensionAt(s, r.value)
    ensures r.Some? ==> forall q | r.value < q < hi :: !ExtensionAt(s, q)
    ensures r.None? ==> forall q | lo <= q < hi :: !ExtensionAt(s, q)
  {
    LastTrue(ExtensionTable(s), lo, hi)
  }

  /** End of the match of `pattern` that starts exactly at `i`, if there is one. */
  function MatchEnd(s: string, i: nat, pattern: Pattern): (r: Option<nat>)
    requires i <= |s|
    ensures r.Some? ==> SchemeLength(s, i) > 0 && i + SchemeLength(s, i) < r.value <= |s|
  {
    var n := SchemeLength(s, i);
    if n == 0 then None else MatchEndAfterScheme(s, i + n, pattern)
  }

  /** End of the rest of the match once the scheme has been read up to `p`: the greedy run
      `[^\s]+`, given back to the last extension for the image pattern. */
  function MatchEndAfterScheme(s: string, p: nat, pattern: Pattern): (r: Option<nat>)
    requires p <= |s|
    ensures r.Some? ==> p < r.value <= |s|
  {
    var e := RunEnd(s, p);
    if e == p then None
    else if pattern == BarePattern then Some(e)
    else
      var q := LastExtensionDot(s, p + 1, e);
      if q.None? then None else Some(q.value + 1 + |ExtensionWord(s, q.value)|)
  }

  /** The first entry of `ms` at or after `i` that holds a value, with its index. */
  function FirstSome<T>(ms: seq<Option<T>>, i: nat): (r: Option<(nat, T)>)
    requires i <= |ms|
    ensures r.Some? ==> i <= r.value.0 < |ms| && ms[r.value.0] == Some(r.value.1)
    ensures r.Some? ==> forall k | i <= k < r.value.0 :: ms[k].None?
    ensures r.None? ==> forall k | i <= k < |ms| :: ms[k].None?
    decreases |ms| - i
  {
    if i == |ms| then None
    else if ms[i].Some? then Some((i, ms[i].value))
    else FirstSome(ms, i + 1)
  }

  /** The match of `pattern` at every start position of `s`, the end of the text included. */
  function MatchTable(s: string, pattern: Pattern): (ms: seq<Option<nat>>)
    ensures |ms| == |s| + 1
    ensures forall k | 0 <= k <= |s| :: ms[k] == MatchEnd(s, k, pattern)
  {
    seq(|s| + 1, k => if 0 <= k <= |s| then MatchEnd(s, k, pattern) else None)
  }

  /** Start and end of the leftmost match of `pattern` in `s`. */
  function LeftmostMatch(s: string, pattern: Pattern): (r: Option<(nat, nat)>)
    ensures r.Some? ==> r.value.0 <= |s| && MatchEnd(s, r.value.0, pattern) == Some(r.value.1)
    ensures r.Some? ==> forall k | 0 <= k < r.value.0 :: MatchEnd(s, k, pattern).None?
    ensures r.None? ==> forall k | 0 <= k <= |s| :: MatchEnd(s, k, pattern).None?
  {
    FirstSome(MatchTable(s, pattern), 0)
  }

  /** `content.match(pattern)?.[0]`: the text of the leftmost match. */
  function FirstMatch(s: string, pattern: Pattern): (r: Option<string>)
    ensures r.None? <==> forall k | 0 <= k <= |s| :: MatchEnd(s, k, pattern).None?
    ensures r.Some? ==> |r.value| > 7
  {
    var m := LeftmostMatch(s, pattern);
    if m.None? then None else Some(s[m.value.0..m.value.1])
  }

  // ---------------------------------------------------------------------------
  // What the two patterns match, stated on the span `s[i..j]` of the text

  /** `s[i..]` starts with `http://` or `https://`, ignoring ASCII case. */
  predicate SchemeAt(s: string, i: nat) {
    HasPrefixIgnoringCase(s, i, "http://") || HasPrefixIgnoringCase(s, i, "https://")
  }

  /** `s[i..j]` ends with a dot and the extension `x`, ignoring ASCII case. */
  predicate EndsWithDotAnd(s: string, i: nat, j: nat, x: string) {
    i + |x| < j <= |s| && s[j - |x| - 1] == '.' && HasPrefixIgnoringCase(s, j - |x|, x)
  }

  /** `s[i..j]` ends with a dot and one of the extensions, ignoring ASCII case. */
  predicate EndsWithExtension(s: string, i: nat, j: nat) {
    || EndsWithDotAnd(s, i, j, "jpg") || EndsWithDotAnd(s, i, j, "jpeg")
    || EndsWithDotAnd(s, i, j, "png") || EndsWithDotAnd(s, i, j, "gif")
    || EndsWithDotAnd(s, i, j, "webp")
  }

  /** The scheme found at `i` contains no whitespace. */
  lemma SchemeNoWhitespace(s: string, i: nat)
    requires SchemeLength(s, i) > 0
    ensures i + SchemeLength(s, i) <= |s| && NoWhitespaceIn(s, i, i + SchemeLength(s, i))
    ensures SchemeAt(s, i)
  {
    assert IsVisibleAscii("https://") && IsVisibleAscii("http://");
    if SchemeLength(s, i) == 8 {
      PrefixNoWhitespace(s, i, "https://");
    } else {
      PrefixNoWhitespace(s, i, "http://");
    }
  }

  /** The dot and extension found at `q` contain no whitespace. */
  lemma ExtensionNoWhitespace(s: string, q: nat)
    requires ExtensionAt(s, q)
    ensures q + 1 + |ExtensionWord(s, q)| <= |s| && NoWhitespaceIn(s, q, q + 1 + |ExtensionWord(s, q)|)
  {
    var x := ExtensionWord(s, q);
    ExtensionsVisible();
    assert IsVisibleAscii(x);
    PrefixNoWhitespace(s, q + 1, x);
    assert !IsJsWhitespace(s[q]);
  }

  /** The dot and extension found at `q` end any span that starts at or before `q`. */
  lemma ExtensionEndsSpan(s: string, i: nat, q: nat)
    requires i <= q && ExtensionAt(s, q)
    ensures EndsWithExtension(s, i, q + 1 + |ExtensionWord(s, q)|)
  {
    var x := ExtensionWord(s, q);
    var j := q + 1 + |x|;
    assert j - |x| == q + 1 && j - |x| - 1 == q;
    assert EndsWithDotAnd(s, i, j, x);
  }

  /** The parts of an image match at `i`: the scheme ends at `p`, the run of non-whitespace
      after it at `e`, and the chosen extension's dot is at `q`, the last one in the run. */
  lemma ImageMatchParts(s: string, i: nat) returns (p: nat, e: nat, q: nat)
    requires i <= |s| && MatchEnd(s, i, ImagePattern).Some?
    ensures p == i + SchemeLength(s, i) && e == RunEnd(s, p) && p < q < e
    ensures ExtensionAt(s, q) && MatchEnd(s, i, ImagePattern).value == q + 1 + |ExtensionWord(s, q)|
    ensures forall q' | q < q' < e :: !ExtensionAt(s, q')
  {
    p := i + SchemeLength(s, i);
    e := RunEnd(s, p);
    q := LastExtensionDot(s, p + 1, e).value;
  }

  /** The extension at the dot `q` inside the run `[p, e)` ends inside the run too. */
  lemma ExtensionInsideRun(s: string, p: nat, q: nat)
    requires p <= |s| && p <= q < RunEnd(s, p) && ExtensionAt(s, q)
    ensures q + 1 + |ExtensionWord(s, q)| <= RunEnd(s, p)
  {
    ExtensionNoWhitespace(s, q);
  }

  /** An image match starts with the scheme, contains no whitespace, ends with a dot and an
      extension, and stops at the last such extension of the whitespace-free run after the
      scheme, so whatever follows that extension in the run (a query string, say) is cut off. */
  lemma ImageMatchShape(s: string, i: nat)
    requires i <= |s| && MatchEnd(s, i, ImagePattern).Some?
    ensures var j := MatchEnd(s, i, ImagePattern).value;
            var e := RunEnd(s, i + SchemeLength(s, i));
            && j <= e
            && SchemeAt(s, i)
            && NoWhitespaceIn(s, i, j)
            && EndsWithExtension(s, i, j)
            && forall q | j - 1 <= q < e :: !ExtensionAt(s, q)
  {
    var p, e, q := ImageMatchParts(s, i);
    SchemeNoWhitespace(s, i);
    ExtensionInsideRun(s, p, q);
    ExtensionEndsSpan(s, i, q);
  }

  /** A bare match starts with the scheme, has at least one character after it, contains no
      whitespace and runs to the next whitespace or the end of the text. */
  lemma BareMatchShape(s: string, i: nat)
    requires i <= |s| && MatchEnd(s, i, BarePattern).Some?
    ensures var j := MatchEnd(s, i, BarePattern).value;
            && SchemeAt(s, i)
            && j > i + SchemeLength(s, i)
            && NoWhitespaceIn(s, i, j)
            && (j == |s| || IsJsWhitespace(s[j]))
  {
    SchemeNoWhitespace(s, i);
  }

  /** `https://` and `http://` cannot both start at `i`: the fifth character would have to be
      both `s` and `:`. */
  lemma NotBothSchemes(s: string, i: nat)
    ensures !(HasPrefixIgnoringCase(s, i, "https://") && HasPrefixIgnoringCase(s, i, "http://"))
  {
    HasPrefixIgnoringCaseAt(s, i, "https://");
    HasPrefixIgnoringCaseAt(s, i, "http://");
    if HasPrefixIgnoringCase(s, i, "https://") {
      assert FoldsTo(s[i + 4], "https://"[4]);
      assert !FoldsTo(s[i + 4], "http://"[4]);
    }
  }

  /** The scheme is found wherever it is: its length is 8 exactly at `https://`, 7 exactly at
      `http://` and 0 exactly where neither starts. */
  lemma SchemeFound(s: string, i: nat)
    ensures SchemeLength(s, i) == 8 <==> HasPrefixIgnoringCase(s, i, "https://")
    ensures SchemeLength(s, i) == 7 <==> HasPrefixIgnoringCase(s, i, "http://")
    ensures SchemeLength(s, i) == 0 <==> !SchemeAt(s, i)
  {
    NotBothSchemes(s, i);
  }

  /** A scheme followed by a non-whitespace character is a bare match, running to the end of
      the whitespace-free run. */
  lemma BareMatchWhenScheme(s: string, i: nat, n: nat)
    requires (n == 8 && HasPrefixIgnoringCase(s, i, "https://")) || (n == 7 && HasPrefixIgnoringCase(s, i, "http://"))
    requires i + n < |s| && !IsJsWhitespace(s[i + n])
    ensures MatchEnd(s, i, BarePattern) == Some(RunEnd(s, i + n))
  {
    NotBothSchemes(s, i);
  }

  /** A scheme whose whitespace-free run holds a dot and an extension after its first
      character is an image match. */
  lemma ImageMatchWhenExtension(s: string, i: nat, n: nat, q: nat)
    requires (n == 8 && HasPrefixIgnoringCase(s, i, "https://")) || (n == 7 && HasPrefixIgnoringCase(s, i, "http://"))
    requires i + n < q < RunEnd(s, i + n) && ExtensionAt(s, q)
    ensures MatchEnd(s, i, ImagePattern).Some?
  {
    NotBothSchemes(s, i);
    assert SchemeLength(s, i) == n;
    ImageMatchAfterScheme(s, i + n, q);
  }

  /** The image pattern matches at a scheme whose run holds an extension after its first
      character: the backtracking finds a last such dot. */
  lemma ImageMatchAfterScheme(s: string, p: nat, q: nat)
    requires p <= |s| && p < q < RunEnd(s, p) && ExtensionAt(s, q)
    ensures MatchEndAfterScheme(s, p, ImagePattern).Some?
  {
    assert LastExtensionDot(s, p + 1, RunEnd(s, p)).Some?;
  }

  /** A URL in the text is found: when the bare pattern matches at `i`, the leftmost bare match
      starts at or before `i`, and likewise for the image pattern. */
  lemma MatchFound(s: string, i: nat, pattern: Pattern)
    requires i <= |s| && MatchEnd(s, i, pattern).Some?
    ensures FirstMatch(s, pattern).Some?
    ensures LeftmostMatch(s, pattern).Some? && LeftmostMatch(s, pattern).value.0 <= i
  {
  }

  /** A text in which the bare pattern finds nothing has no image-pattern match either. */
  lemma NoBareMatchNoImageMatch(s: string)
    requires FirstMatch(s, BarePattern).None?
    ensures FirstMatch(s, ImagePattern).None?
  {
    forall k | 0 <= k <= |s| ensures MatchEnd(s, k, ImagePattern).None? {
      if MatchEnd(s, k, ImagePattern).Some? {
        ImageMatchWithinBareMatch(s, k);
      }
    }
  }

  /** Wherever the image pattern matches, the bare pattern matches too, from the same start
      and at least as far. */
  lemma ImageMatchWithinBareMatch(s: string, i: nat)
    requires i <= |s| && MatchEnd(s, i, ImagePattern).Some?
    ensures MatchEnd(s, i, BarePattern).Some?
    ensures MatchEnd(s, i, ImagePattern).value <= MatchEnd(s, i, BarePattern).value
  {
    ImageMatchShape(s, i);
  }
}
