/** Loading the predefined search terms: `YouTubeAnalyzer._load_keywords`
    (src/youtube_api.py:19-30). The file itself is not read here: the model
    receives the lines the file iteration delivered (none when the file could
    not be opened, the lines before the failure when reading stopped early). */
module Keywords {

  /** Python's `str.isspace`: the characters `str.strip()` removes. */
  predicate IsWhitespace(c: char) {
    || ('\t' <= c <= '\r')
    || ('\U{1C}' <= c <= '\U{1F}')
    || c == ' ' || c == '\U{85}' || c == '\U{A0}' || c == '\U{1680}'
    || ('\U{2000}' <= c <= '\U{200A}')
    || c == '\U{2028}' || c == '\U{2029}' || c == '\U{202F}' || c == '\U{205F}' || c == '\U{3000}'
  }

  /** Neither starts nor ends with whitespace. */
  predicate Stripped(s: string) {
    s != [] ==> !IsWhitespace(s[0]) && !IsWhitespace(s[|s| - 1])
  }

  /** `str.lstrip()`: drops the leading whitespace of `s`. */
  function StripLeft(s: string): (r: string)
    ensures |r| <= |s|
    ensures forall i :: 0 <= i < |s| - |r| ==> IsWhitespace(s[i])
    ensures r != [] ==> !IsWhitespace(r[0])
  {
    if s != [] && IsWhitespace(s[0]) then StripLeft(s[1..]) else s
  }

  /** `str.rstrip()`: drops the trailing whitespace of `s`. */
  function StripRight(s: string): (r: string)
    ensures |r| <= |s|
    ensures forall i :: |r| <= i < |s| ==> IsWhitespace(s[i])
    ensures r != [] ==> !IsWhitespace(r[|r| - 1])
  {
    if s != [] && IsWhitespace(s[|s| - 1]) then StripRight(s[..|s| - 1]) else s
  }

  /** What `lstrip` keeps is a suffix of its argument. */
  lemma {:induction false} StripLeftIsSuffix(s: string)
    ensures StripLeft(s) == s[|s| - |StripLeft(s)|..]
  {
    if s != [] && IsWhitespace(s[0]) {
      StripLeftIsSuffix(s[1..]);
    }
  }

  /** What `rstrip` keeps is a prefix of its argument. */
  lemma {:induction false} StripRightIsPrefix(s: string)
    ensures StripRight(s) == s[..|StripRight(s)|]
  {
    if s != [] && IsWhitespace(s[|s| - 1]) {
      StripRightIsPrefix(s[..|s| - 1]);
    }
  }

  /** `str.strip()`: `s` without its leading and trailing whitespace. */
  function Strip(s: string): (r: string)
    ensures |r| <= |s| && Stripped(r)
  {
    var left := StripLeft(s);
    var r := StripRight(left);
    StripRightIsPrefix(left);
    assert r != [] ==> r[0] == left[0];
    r
  }

  /** What `strip` removes is whitespace only, and what it keeps is a
      contiguous part of the line. */
  lemma StripIsSlice(s: string)
    ensures var lo := |s| - |StripLeft(s)|; var r := Strip(s);
      && lo + |r| <= |s| && r == s[lo..lo + |r|]
      && (forall i :: 0 <= i < lo ==> IsWhitespace(s[i]))
      && (forall i :: lo + |r| <= i < |s| ==> IsWhitespace(s[i]))
  {
    var left := StripLeft(s);
    var lo := |s| - |left|;
    StripLeftIsSuffix(s);
    StripRightIsPrefix(left);
    var r := Strip(s);
    forall i | lo + |r| <= i < |s| ensures IsWhitespace(s[i]) {
      assert s[i] == left[i - lo];
    }
  }

  /** A line that is already stripped is left as it is: stripping is idempotent. */
  lemma StripFixesStripped(s: string)
    requires Stripped(s)
    ensures Strip(s) == s
  {
    assert StripLeft(s) == s;
  }

  lemma StripIdempotent(s: string)
    ensures Strip(Strip(s)) == Strip(s)
  {
    StripFixesStripped(Strip(s));
  }

  /** The condition `line and not line.startswith('#')` on a stripped line. */
  predicate IsKeyword(line: string) {
    line != [] && line[0] != '#'
  }

  /** The keywords `_load_keywords` returns for the given file lines, in file order. */
  function KeywordsOf(lines: seq<string>): (keywords: seq<string>)
    ensures |keywords| <= |lines|
    ensures forall k :: k in keywords ==> IsKeyword(k) && Stripped(k)
  {
    if lines == [] then []
    else
      var rest := KeywordsOf(lines[..|lines| - 1]);
      var line := Strip(lines[|lines| - 1]);
      if IsKeyword(line) then rest + [line] else rest
  }

  /** The loop of `_load_keywords`: strip each line, keep the non-blank,
      non-comment ones, append them in order. */
  method LoadKeywords(lines: seq<string>) returns (keywords: seq<string>)
    ensures keywords == KeywordsOf(lines)
    ensures forall k :: k in keywords ==> k != [] && k[0] != '#' && Stripped(k)
  {
    keywords := [];
    for i := 0 to |lines|
      invariant keywords == KeywordsOf(lines[..i])
    {
      assert lines[..i + 1][..i] == lines[..i];
      var line := Strip(lines[i]);
      if line != [] && line[0] != '#' {
        keywords := keywords + [line];
      }
    }
    assert lines[..|lines|] == lines;
  }

  /** File order is kept: the keywords of two consecutive runs of lines are
      the keywords of the first run followed by those of the second. */
  lemma {:induction false} KeywordsOfConcat(a: seq<string>, b: seq<string>)
    ensures KeywordsOf(a + b) == KeywordsOf(a) + KeywordsOf(b)
    decreases |b|
  {
    if b == [] {
      assert a + b == a;
    } else {
      var b' := b[..|b| - 1];
      assert (a + b)[..|a + b| - 1] == a + b';
      assert (a + b)[|a + b| - 1] == b[|b| - 1];
      KeywordsOfConcat(a, b');
    }
  }

  /** Some line of `lines` strips to `k`. */
  ghost predicate SomeLineStripsTo(lines: seq<string>, k: string) {
    exists i :: 0 <= i < |lines| && Strip(lines[i]) == k
  }

  /** A string is returned exactly when some line strips to it and the stripped
      line is neither blank nor a `#` comment. */
  lemma {:induction false} KeywordsOfMembers(lines: seq<string>, k: string)
    ensures k in KeywordsOf(lines) <==> IsKeyword(k) && SomeLineStripsTo(lines, k)
  {
    if k in KeywordsOf(lines) {
      KeywordsOfSound(lines, k);
    }
    if IsKeyword(k) && SomeLineStripsTo(lines, k) {
      var i :| 0 <= i < |lines| && Strip(lines[i]) == k;
      KeywordsOfComplete(lines, i);
    }
  }

  lemma {:induction false} KeywordsOfSound(lines: seq<string>, k: string)
    requires k in KeywordsOf(lines)
    ensures SomeLineStripsTo(lines, k)
    decreases |lines|
  {
    var last := |lines| - 1;
    var init := lines[..last];
    if k in KeywordsOf(init) {
      KeywordsOfSound(init, k);
      var i :| 0 <= i < |init| && Strip(init[i]) == k;
      assert lines[i] == init[i];
    } else {
      assert Strip(lines[last]) == k;
    }
  }

  lemma {:induction false} KeywordsOfComplete(lines: seq<string>, i: nat)
    requires i < |lines| && IsKeyword(Strip(lines[i]))
    ensures Strip(lines[i]) in KeywordsOf(lines)
    decreases |lines|
  {
    var last := |lines| - 1;
    var init := lines[..last];
    if i < last {
      assert init[i] == lines[i];
      KeywordsOfComplete(init, i);
    }
  }
}
