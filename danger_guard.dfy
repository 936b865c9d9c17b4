/** The lexical danger guard shared by the three query instructions: split the
    query on single spaces, trim each piece, lower-case its ASCII letters and
    compare it exactly against a three-word denylist. */
module DangerGuard {

  /** The denylist, in the order the source lists it. */
  const DangerWords: seq<string> := ["truncate", "delete", "drop"]

  // ---------------------------------------------------------------------------
  // `str::split(' ')`

  /** The pieces of `s` between occurrences of `sep`, empty pieces included:
      `k` separators always give `k + 1` pieces, and no piece holds `sep`. */
  function Split(s: string, sep: char): (r: seq<string>)
    ensures |r| == Count(s, sep) + 1
    ensures forall k :: 0 <= k < |r| ==> sep !in r[k]
    decreases |s|
  {
    if |s| == 0 then [""]
    else
      var rest := Split(s[1..], sep);
      if s[0] == sep then [""] + rest
      else [[s[0]] + rest[0]] + rest[1..]
  }

  /** The number of occurrences of `c` in `s`. */
  function Count(s: string, c: char): nat
    decreases |s|
  {
    if |s| == 0 then 0 else (if s[0] == c then 1 else 0) + Count(s[1..], c)
  }

  /** The pieces `ts` glued back together with `sep` between neighbours. */
  function Join(ts: seq<string>, sep: char): string
    decreases |ts|
  {
    if |ts| == 0 then ""
    else if |ts| == 1 then ts[0]
    else ts[0] + [sep] + Join(ts[1..], sep)
  }

  /** Gluing the pieces back together gives the original text. */
  lemma {:induction false} JoinSplit(s: string, sep: char)
    ensures Join(Split(s, sep), sep) == s
    decreases |s|
  {
    if |s| > 0 {
      var rest := Split(s[1..], sep);
      JoinSplit(s[1..], sep);
      if s[0] == sep {
        assert Split(s, sep) == [""] + rest;
        assert ([""] + rest)[1..] == rest;
      } else {
        assert Split(s, sep) == [[s[0]] + rest[0]] + rest[1..];
        JoinFirst(s[0], rest, sep);
      }
      assert s == [s[0]] + s[1..];
    }
  }

  /** Prepending a character to the first piece prepends it to the joined text. */
  lemma JoinFirst(c: char, ts: seq<string>, sep: char)
    requires |ts| >= 1
    ensures Join([[c] + ts[0]] + ts[1..], sep) == [c] + Join(ts, sep)
  {
  }

  /** A leading separator opens a new, empty first piece. */
  lemma SplitConsSep(t: string, sep: char)
    ensures Split([sep] + t, sep) == [""] + Split(t, sep)
  {
    assert ([sep] + t)[1..] == t;
  }

  /** Any other leading character joins the first piece of the rest. */
  lemma SplitConsOther(c: char, t: string, sep: char)
    requires c != sep
    ensures Split([c] + t, sep) == [[c] + Split(t, sep)[0]] + Split(t, sep)[1..]
  {
    assert ([c] + t)[1..] == t;
  }

  /** A separator splits the text into the pieces of either side. */
  lemma {:induction false} SplitAppend(a: string, b: string, sep: char)
    ensures Split(a + [sep] + b, sep) == Split(a, sep) + Split(b, sep)
    decreases |a|
  {
    if |a| == 0 {
      assert a + [sep] + b == [sep] + b;
      SplitConsSep(b, sep);
    } else {
      SplitAppend(a[1..], b, sep);
      SplitAppendStep(a, b, sep);
    }
  }

  /** The inductive step of SplitAppend: one more character in front. */
  lemma SplitAppendStep(a: string, b: string, sep: char)
    requires |a| > 0
    requires Split(a[1..] + [sep] + b, sep) == Split(a[1..], sep) + Split(b, sep)
    ensures Split(a + [sep] + b, sep) == Split(a, sep) + Split(b, sep)
  {
    var t := a[1..] + [sep] + b;
    FrontSplitOff(a, sep, b);
    ConsAppend(a[0], a[1..], t, Split(b, sep), sep);
  }

  /** A non-empty text is its first character in front of the rest, also
      when a separator and more text follow. */
  lemma FrontSplitOff(a: string, sep: char, b: string)
    requires |a| > 0
    ensures a == [a[0]] + a[1..]
    ensures a + [sep] + b == [a[0]] + (a[1..] + [sep] + b)
  {
  }

  /** Putting `c` in front of `u` and of `t` changes their pieces alike,
      when the pieces of `t` are those of `u` followed by `rb`. */
  lemma ConsAppend(c: char, u: string, t: string, rb: seq<string>, sep: char)
    requires Split(t, sep) == Split(u, sep) + rb
    ensures Split([c] + t, sep) == Split([c] + u, sep) + rb
  {
    if c == sep {
      SplitConsSep(t, sep);
      SplitConsSep(u, sep);
    } else {
      SplitConsOther(c, t, sep);
      SplitConsOther(c, u, sep);
      PrependToFirst([c], Split(u, sep), rb);
    }
  }

  /** Gluing `x` onto the first of the pieces `ru` commutes with appending
      the pieces `rb`. */
  lemma PrependToFirst(x: string, ru: seq<string>, rb: seq<string>)
    requires |ru| > 0
    ensures [x + (ru + rb)[0]] + (ru + rb)[1..] == [x + ru[0]] + ru[1..] + rb
  {
    assert (ru + rb)[1..] == ru[1..] + rb;
  }

  /** No piece is longer than the text it came from. */
  lemma {:induction false} SplitPiecesFit(s: string, sep: char)
    ensures forall k :: 0 <= k < |Split(s, sep)| ==> |Split(s, sep)[k]| <= |s|
    decreases |s|
  {
    if |s| > 0 {
      SplitPiecesFit(s[1..], sep);
    }
  }

  /** Text without the separator is a single piece. */
  lemma {:induction false} SplitWithoutSep(w: string, sep: char)
    requires sep !in w
    ensures Split(w, sep) == [w]
    decreases |w|
  {
    if |w| > 0 {
      assert sep !in w[1..] by {
        forall k | 0 <= k < |w[1..]| ensures w[1..][k] != sep { assert w[1..][k] == w[k + 1]; }
      }
      SplitWithoutSep(w[1..], sep);
      assert w == [w[0]] + w[1..];
    }
  }

  /** Splitting undoes joining: separator-free pieces come back unchanged. */
  lemma {:induction false} SplitJoin(ts: seq<string>, sep: char)
    requires |ts| >= 1
    requires forall k :: 0 <= k < |ts| ==> sep !in ts[k]
    ensures Split(Join(ts, sep), sep) == ts
    decreases |ts|
  {
    SplitWithoutSep(ts[0], sep);
    if |ts| > 1 {
      SplitJoin(ts[1..], sep);
      SplitAppend(ts[0], Join(ts[1..], sep), sep);
      assert ts == [ts[0]] + ts[1..];
    }
  }

  // ---------------------------------------------------------------------------
  // `str::trim`

  /** `char::is_whitespace`: the characters with the Unicode White_Space
      property. Among ASCII characters these are exactly space, tab, line
      feed, vertical tab, form feed and carriage return. */
  predicate IsWhitespace(c: char): (b: bool)
    ensures c as int < 0x80 ==> (b <==> c in {' ', '\t', '\n', '\U{000B}', '\U{000C}', '\r'})
  {
    ('\t' <= c <= '\r') || c == ' ' || c == '\U{0085}' || c == '\U{00A0}' || c == '\U{1680}'
    || ('\U{2000}' <= c <= '\U{200A}') || c == '\U{2028}' || c == '\U{2029}'
    || c == '\U{202F}' || c == '\U{205F}' || c == '\U{3000}'
  }

  /** The length of the longest all-whitespace prefix of `s`. */
  function LeadingWhitespace(s: string): (n: nat)
    ensures n <= |s|
    ensures forall k :: 0 <= k < n ==> IsWhitespace(s[k])
    ensures n < |s| ==> !IsWhitespace(s[n])
    decreases |s|
  {
    if |s| > 0 && IsWhitespace(s[0]) then 1 + LeadingWhitespace(s[1..]) else 0
  }

  /** The length of the longest all-whitespace suffix of `s`. */
  function TrailingWhitespace(s: string): (n: nat)
    ensures n <= |s|
    ensures forall k :: |s| - n <= k < |s| ==> IsWhitespace(s[k])
    ensures n < |s| ==> !IsWhitespace(s[|s| - 1 - n])
    decreases |s|
  {
    if |s| > 0 && IsWhitespace(s[|s| - 1]) then 1 + TrailingWhitespace(s[..|s| - 1]) else 0
  }

  /** `s` without its leading and trailing whitespace: a contiguous piece of
      `s` that neither starts nor ends with whitespace, outside of which
      every character of `s` is whitespace. */
  function Trim(s: string): (r: string)
    ensures LeadingWhitespace(s) + |r| <= |s|
    ensures |r| > 0 ==> !IsWhitespace(r[0]) && !IsWhitespace(r[|r| - 1])
    ensures r == s[LeadingWhitespace(s)..LeadingWhitespace(s) + |r|]
    ensures forall k :: 0 <= k < LeadingWhitespace(s) ==> IsWhitespace(s[k])
    ensures forall k :: LeadingWhitespace(s) + |r| <= k < |s| ==> IsWhitespace(s[k])
  {
    var i := LeadingWhitespace(s);
    var rest := s[i..];
    var j := TrailingWhitespace(rest);
    assert forall k :: i + |rest| - j <= k < |s| ==> s[k] == rest[k - i];
    assert rest[..|rest| - j] == s[i..i + |rest| - j];
    rest[..|rest| - j]
  }

  /** Trimming a second time changes nothing. */
  lemma TrimIdempotent(s: string)
    ensures Trim(Trim(s)) == Trim(s)
  {
  }

  /** Text with no whitespace is left as it is. */
  lemma TrimWithoutWhitespace(s: string)
    requires forall k :: 0 <= k < |s| ==> !IsWhitespace(s[k])
    ensures Trim(s) == s
  {
  }

  // ---------------------------------------------------------------------------
  // `str::to_ascii_lowercase`

  predicate IsAsciiUpper(c: char) {
    'A' <= c <= 'Z'
  }

  /** An ASCII letter of either case. */
  predicate IsAsciiLetter(c: char) {
    'a' <= c <= 'z' || IsAsciiUpper(c)
  }

  /** One character lower-cased: an ASCII capital becomes its small letter,
      and every other character is kept, so no ASCII capital remains. */
  function LowerChar(c: char): (r: char)
    ensures !IsAsciiUpper(r)
    ensures IsAsciiUpper(c) ==> 'a' <= r <= 'z' && r as int == c as int + 32
    ensures !IsAsciiUpper(c) ==> r == c
  {
    if IsAsciiUpper(c) then (c as int - 'A' as int + 'a' as int) as char else c
  }

  /** `s` with every ASCII capital replaced by its small letter; every other
      character, including non-ASCII letters, is kept. */
  function ToAsciiLower(s: string): (r: string)
    ensures |r| == |s|
    ensures forall k :: 0 <= k < |s| ==> !IsAsciiUpper(r[k])
    ensures forall k :: 0 <= k < |s| && !IsAsciiUpper(s[k]) ==> r[k] == s[k]
    ensures forall k :: 0 <= k < |s| && IsAsciiUpper(s[k]) ==> r[k] as int == s[k] as int + 32
  {
    seq(|s|, k requires 0 <= k < |s| => LowerChar(s[k]))
  }

  // ---------------------------------------------------------------------------
  // The guard

  /** One piece of the query trips the guard. Only a piece that trims to
      four, six or eight ASCII letters can. */
  predicate IsDangerousWord(word: string): (b: bool)
    ensures b ==> |Trim(word)| in {4, 6, 8} && forall k :: 0 <= k < |Trim(word)| ==> IsAsciiLetter(Trim(word)[k])
  {
    ToAsciiLower(Trim(word)) in DangerWords
  }

  /** Some piece in `words` is dangerous. */
  predicate AnyDangerous(words: seq<string>) {
    exists k :: 0 <= k < |words| && IsDangerousWord(words[k])
  }

  /** The query holds a dangerous piece. A query shorter than "drop" never
      does. */
  predicate IsDangerous(query: string): (b: bool)
    ensures b ==> |query| >= 4
  {
    SplitPiecesFit(query, ' ');
    AnyDangerous(Split(query, ' '))
  }

  /** The search loop of the instructions: scan the space-separated pieces
      and stop at the first dangerous one. The query is refused exactly when
      dangerous queries are not allowed and some piece is dangerous. */
  method CheckQuery(query: string, dangerAllowed: bool) returns (refused: bool)
    ensures refused <==> !dangerAllowed && IsDangerous(query)
  {
    if dangerAllowed {
      return false;
    }
    var words := Split(query, ' ');
    var i := 0;
    while i < |words|
      invariant 0 <= i <= |words|
      invariant forall k :: 0 <= k < i ==> !IsDangerousWord(words[k])
    {
      var word := Trim(words[i]);
      if ToAsciiLower(word) in DangerWords {
        return true;
      }
      i := i + 1;
    }
    return false;
  }

  /** Text without a space is dangerous exactly when it is a dangerous word. */
  lemma DangerousSingleWord(w: string)
    requires ' ' !in w
    ensures IsDangerous(w) <==> IsDangerousWord(w)
  {
    SplitWithoutSep(w, ' ');
    assert Split(w, ' ')[0] == w;
  }

  /** A query is dangerous exactly when one of the pieces it is split into
      is, whatever separator-free pieces it is glued from. */
  lemma DangerousJoin(words: seq<string>)
    requires |words| >= 1
    requires forall k :: 0 <= k < |words| ==> ' ' !in words[k]
    ensures IsDangerous(Join(words, ' ')) <==> AnyDangerous(words)
  {
    SplitJoin(words, ' ');
  }

  /** A query cut at one of its spaces is dangerous exactly when one side is. */
  lemma DangerousAtSpace(query: string, i: nat)
    requires i < |query| && query[i] == ' '
    ensures IsDangerous(query) <==> IsDangerous(query[..i]) || IsDangerous(query[i + 1..])
  {
    assert query == query[..i] + " " + query[i + 1..];
    DangerousConcat(query[..i], query[i + 1..]);
  }

  /** A query joined at a space is dangerous exactly when one side is. With
      DangerousSingleWord this decides the guard for every query. */
  lemma DangerousConcat(a: string, b: string)
    ensures IsDangerous(a + " " + b) <==> IsDangerous(a) || IsDangerous(b)
  {
    SplitAppend(a, b, ' ');
    assert a + " " + b == a + [' '] + b;
    AnyDangerousAppend(Split(a, ' '), Split(b, ' '));
  }

  lemma AnyDangerousAppend(wa: seq<string>, wb: seq<string>)
    ensures AnyDangerous(wa + wb) <==> AnyDangerous(wa) || AnyDangerous(wb)
  {
    var w := wa + wb;
    if AnyDangerous(wa) {
      var k :| 0 <= k < |wa| && IsDangerousWord(wa[k]);
      assert w[k] == wa[k];
    }
    if AnyDangerous(wb) {
      var k :| 0 <= k < |wb| && IsDangerousWord(wb[k]);
      assert w[|wa| + k] == wb[k];
    }
    if AnyDangerous(w) {
      var k :| 0 <= k < |w| && IsDangerousWord(w[k]);
      if k < |wa| {
        assert w[k] == wa[k];
      } else {
        assert w[k] == wb[k - |wa|];
      }
    }
  }

  /** The guard on a word made of visible characters: it is dangerous exactly
      when its lower-cased form is on the denylist. */
  lemma SingleWordCheck(w: string)
    requires forall k :: 0 <= k < |w| ==> !IsWhitespace(w[k])
    ensures IsDangerous(w) <==> ToAsciiLower(w) in DangerWords
  {
    assert ' ' !in w by {
      forall k | 0 <= k < |w| ensures w[k] != ' ' { assert !IsWhitespace(w[k]); }
    }
    DangerousSingleWord(w);
    TrimWithoutWhitespace(w);
  }
}
